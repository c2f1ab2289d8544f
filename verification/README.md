# A verified model of the ingest, classify, index and search pipeline

The pipeline keeps its state in one SQLite file, a directory tree and an append-only log. Each stage commits a
transaction and moves files, several processes may run at once, and a kill may fall between any two steps. This
project models the stages in Dafny and proves what the code keeps in every reachable state, and where it does not,
exactly when it does.

How the modules fit together:

- `Lifecycle` is a step machine over the tables `documents`, `documents_fts`, `documents_vec`, `edges` and
  `taxonomy_terms`, the body files, one staged transaction and one program counter per worker. A step is one statement
  of the indexer or the classifier; a crash drops what the worker has staged. `LifecycleInvariant` carries the
  invariant through every step and `LifecycleTheorems` states what follows for every run; `LifecycleWitness` holds a run
  that misses a link. `EdgesBuilder` and `Taxonomy` are the edge lists and the vocabulary the machine uses. `IndexStore`
  is the same code as a class over one connection, with lemmas that tie its result to a solo run of the machine.
- `Lake` and `Ingest` are the drain: the class `Corpus` holds the directories, the rows and the body files; any call may
  fail and the process may die between any two calls.
- `DrainLock` is the lock file at the granularity of system calls for any number of processes, and the same calls as code.
- `Recovery` and `RecoveryScan` are the scan of the log after a restart: a declarative definition of the orphans and the
  pass that computes them. `RecoveryTheorems` says what orphans and their resumption are in terms of the logged events.
- `Fusion`, `FusionTheorems` and `TierCascade` are the ranking and the four-tier search.
- `Frontmatter` and `Catalog` are the two text formats, printed and parsed.
- `DrainTrigger`, `ClassifyBatch` and `EngagementReport` are the daemon's coalescing drain trigger, the batch loops with
  their circuit breaker, and the engagement report.

What the model takes for granted, because the code relies on it:

- Different contents held by the lake have different truncated digests (`Lake.Separated`), random tags are names not in
  use yet, and a file does not change while it is drained. A content is represented by its SHA-256 digest.
- A successful COMMIT is durable, a failed one leaves no rows, and SQLite admits one write transaction at a time.
- For the completeness of tag edges the tag threshold is positive, and for that of similarity edges the cosine is
  symmetric; cosine values are otherwise arbitrary. The other results hold for every configuration.
- One drain at a time touches the directories and the rows. The lock gives this only while its owner's signal is not
  aborted: an abort releases the lock at once although the drain loop goes on routing its remaining files to failed/
  (packages/pipeline/src/drain-lock.ts:128-134, packages/pipeline/src/drain-orchestrator.ts:409-438).
- The YAML library prints an object as a text that is not empty, ends in a newline and has no line `---`
  (`Frontmatter.WellShaped`). That it reads its output back without the last newline is not assumed: it does not when
  the last value is a string that ends in several newlines, which a block scalar keeps, and then that string comes back
  one newline shorter (`Frontmatter.RoundTrip` says what follows).
- Floating-point numbers are reals. Timeouts, aborts and failing calls are nondeterministic choices.

What turned out not to hold, each with a concrete run or input and with the exact condition:

- Non-overlapping steal sections do not make the drain lock exclusive: a holder that is alive when its pid is read, and
  then releases and dies before the probe, lets the thief unlink a third process's lock (`DrainLock.LateDeath`; two
  thieves: `DrainLock.OverlappingThieves`). A steal is harmless exactly when, at its unlink, no other live process holds
  the lock, has created the file without having written its pid yet, or is about to unlink it in a release
  (`DrainLock.StealSafeIff`), and a run is safe exactly when all its steals are (`DrainLock.SecureIffGuarded`).
- A sidecar is written over a file already in failed/ that has the sidecar's name (`Lake.SidecarLosesContent`,
  `Lake.SidecarKeepsIff`), a leftover of pending/ is restored over an inbox file of the same name
  (`Lake.RestoreLosesContent`, `Lake.RestoreKeepsIff`), and the move to pending/ falls back to an occupied name when the
  rename to the tagged one throws (`Lake.FallbackLosesContent`, `Lake.ToPendingKeepsIff`).
- The vocabulary check accepts any domain once some domain is proposed (`LifecycleTheorems.UnknownDomainAccepted`,
  `LifecycleTheorems.DomainClosedIff`).
- Overlapping indexers can miss similarity edges (`LifecycleWitness.OverlapMissesLink`,
  `LifecycleTheorems.SimilarityLinkIff`).
- The fast frontmatter stripper differs from the parser on an empty block, on a closing delimiter in the last line and
  on an unterminated block (`Frontmatter.EmptyBlockDiffers`, `Frontmatter.LastLineDiffers`,
  `Frontmatter.UnterminatedDiffers`, `Frontmatter.StripAgreesIff`).
- A log line that is the JSON value null makes the recovery scan throw (`RecoveryScan.NullLineThrows`); when nothing
  fails from outside, it throws exactly if the lock is free and such a line follows the last session marker
  (`RecoveryScan.NullThrowIff`). The other causes of a throw are a sidecar that cannot be written for an orphan that is
  not resumable and a failing system call (`RecoveryScan.RunRecoveryScan`).
- Interrupted scans are not always noticed: after a scan that threw at a sidecar, the next scan of the session reports a
  re-entry exactly when no earlier scan of that session was completed (`RecoveryScan.RunRecoveryScan`,
  `RecoveryScan.Interrupted`). Starts without a document id share one key with each other and with the id "(null)", so
  of several such ingests only the first file named decides whether all of them are resumed
  (`RecoveryTheorems.ResumedIff`, `Recovery.KeyInjective`).
- A trigger that arrives while a drain is about to be rejected, or before an abort, may see no drain
  (`DrainTrigger.ExceptionsAreReal`); exactly when the pending flag is still up (`DrainTrigger.NoLostWakeup`).
- The policy field for the circuit breaker's threshold is never passed to it: both batch loops use the default of 3
  (`ClassifyBatch.THRESHOLD`). "Consecutive" failures need not be adjacent (`ClassifyBatch.NeedNotBeAdjacent`,
  `ClassifyBatch.OthersLeaveTheCounter`).

## Model

| member | source | states |
|---|---|---|
| EdgesBuilder.ComputeJaccard | packages/index/src/edges-builder.ts:48-55 | the counting loop computes the ratio of the sizes of intersection and union, and 0 for two empty sets |
| EdgesBuilder.JaccardSymmetric | packages/index/src/edges-builder.ts:48-55 | the ratio does not depend on the order of the two tag sets, which is what lets an edge stored one way serve both documents |
| EdgesBuilder.JaccardRange | packages/index/src/edges-builder.ts:48-55 | the ratio lies in [0, 1], is 1 exactly on equal non-empty sets and positive exactly when a tag is shared |
| EdgesBuilder.JaccardIs | packages/index/src/edges-builder.ts:48-55 | times the size of the union it gives the number of shared tags |
| EdgesBuilder.BuildEdges | packages/index/src/edges-builder.ts:62-156 | an edge is on the list exactly if it is a tag edge to a row with enough tags in common, a similarity edge to a row that is near enough, or an explicit edge of weight 1 to a related id written `doc-` and eight lower-case hex digits; a failed vector query contributes none, malformed rows and ids are skipped, no edge points to its own document |
| EdgesBuilder.EdgeClasses | packages/index/src/edges-builder.ts:77-153 | the three classes of edges, each by its members |
| EdgesBuilder.RelatedDigest | packages/index/src/edges-builder.ts:141-153 | every id made from a hex digest, on the list of related ids and not the document itself, gets its explicit edge of weight 1; a text of any other form gets none |
| Taxonomy.LoadEstablishedVocabulary | packages/inference/src/vocabulary.ts:45-87 | sorting the rows of the query gives exactly the established terms of each axis |
| Taxonomy.FirstUnknownTagIs | packages/inference/src/validate.ts:82-92 | the tag reported is the first one unknown, and none is reported exactly when all are known |
| Taxonomy.AcceptedOutput | packages/inference/src/validate.ts:71-95 | an output is accepted exactly when its domain is known or some domain is proposed, and every tag is known or proposed |
| Taxonomy.SnapshotStays | packages/inference/src/vocabulary.ts:45-87 | a stale snapshot stays correct while terms are only added or promoted |
| Taxonomy.TermsAfterIs | packages/storage/src/classify-persister.ts:210-243 | the proposals add exactly the missing terms, as proposed, and alter no existing term |
| LifecycleInvariant.InsertVecKeeps | packages/storage/src/index-persister.ts:124-145 | the vector table's primary key drops the transaction of a second indexer, its full-text row with it |
| LifecycleInvariant.ReadTagsKeeps | packages/index/src/edges-builder.ts:80-107 | the tag query keeps the invariant that two near documents, indexed or in flight, are linked or one is on the other's list |
| LifecycleInvariant.CommitIndexKeeps | packages/pipeline/src/retrieval-orchestrator.ts:199-271 | committing the three index writes keeps the invariant for every other worker in flight |
| LifecycleInvariant.CommitClassifyTables | packages/storage/src/classify-persister.ts:192-250 | a classification commit fills one unclassified row, adds its proposals, changes nothing else, and closes the tag axis |
| LifecycleInvariant.StepKeeps | packages/pipeline/src/retrieval-orchestrator.ts:114-271 | every statement of every worker, every crash and every change from outside keeps the invariant |
| LifecycleInvariant.StepGrows | packages/storage/src/document-writer.ts:173-192 | no step loses a committed row, edge or term, and facets once set stay as they are |
| LifecycleInvariant.RunKeeps | packages/storage/src/index-persister.ts:87-186 | the invariant holds in every reachable state of any interleaving |
| LifecycleTheorems.IndexedExactlyOnce | packages/storage/src/sp005-migration.ts:25-54 | in every reachable state a document has its full-text row exactly once or not at all, exactly as it has its vector row; only then outgoing edges; no self-loop |
| LifecycleTheorems.TagNeighbours | packages/index/src/graph-adapter.ts:85-106 | two indexed documents with enough tags in common are neighbours of each other over an edge of exactly their Jaccard weight, under any interleaving |
| LifecycleTheorems.TagEdgesAreNear | packages/index/src/edges-builder.ts:77-108 | conversely a stored tag edge joins two different classified documents whose tags still have that weight, at or above the threshold |
| LifecycleTheorems.SimilarityNeighbours | packages/index/src/edges-builder.ts:110-138 | with serialised indexers the same completeness holds for similarity edges |
| LifecycleTheorems.SimilarityLinkIff | packages/index/src/edges-builder.ts:110-138 | without serialisation a similar document is linked if and only if the vector query succeeded and the document was indexed when it ran |
| LifecycleTheorems.ExplicitNeighbours | packages/index/src/edges-builder.ts:141-153 | once a worker has committed its index writes, every stored document on its list of related ids is a neighbour over an explicit edge, and stays one |
| LifecycleWitness.OverlapMissesLink | packages/pipeline/src/retrieval-orchestrator.ts:121-197 | for any two vectors that count as similar, a run without a crash or a failed query in which two overlapping indexers index both documents and no similarity edge joins them |
| LifecycleTheorems.RowNeverBehindFile | packages/storage/src/classify-persister.ts:192-270 | a body file rewritten by a classification has a row with exactly those facets, whatever crashes |
| LifecycleTheorems.CommittedStays | packages/storage/src/document-writer.ts:173-192 | over any run a row leaves the unclassified state at most once and its facets never change afterwards |
| LifecycleTheorems.TagVocabularyClosed | packages/storage/src/classify-persister.ts:210-250 | every tag of a classified row is a taxonomy term, however stale the snapshot |
| LifecycleTheorems.StepEstablishes | packages/storage/src/taxonomy-terms-adapter.ts:53-78 | no classification and no indexing creates or alters an established term |
| LifecycleTheorems.EstablishedOnlyByReview | packages/cli/src/install-helpers/taxonomy-promote-helpers.ts:250-257 | a term is established in a reachable state only if it was seeded or promoted in the run |
| LifecycleTheorems.DomainClosedIff | packages/inference/src/validate.ts:71-80 | a commit keeps every domain a term if and only if the domain was in the snapshot, equals the proposed one, or is already a term |
| LifecycleTheorems.UnknownDomainAccepted | packages/inference/src/validate.ts:71-80 | for every unknown domain there is an accepted output that proposes another one and leaves the domain without a term |
| LifecycleTheorems.GuardedRunsCloseDomains | packages/storage/src/classify-persister.ts:210-250 | runs in which every accepted output meets the guard keep every domain of every row a term |
| IndexStore.Connection.PersistIndex | packages/storage/src/index-persister.ts:87-186 | success means that the primary key and the foreign keys let the writes through and exactly they are staged; without faults they succeed exactly then |
| IndexStore.Connection.RetrievalOrchestrator | packages/pipeline/src/retrieval-orchestrator.ts:114-271 | an indexed outcome adds exactly one full-text row, one vector row and the edges to what the database holds: tags and query rows are read from it, and every related id is one of its rows; every other outcome leaves it as it was; without faults the outcome is determined by the tables |
| IndexStore.Connection.UpdateClassification | packages/storage/src/document-writer.ts:173-192 | the guarded UPDATE changes one row exactly when it is unclassified |
| IndexStore.Connection.WriteClassification | packages/storage/src/classify-persister.ts:192-243 | the row and the proposals staged, and the count of proposals new to the snapshot |
| IndexStore.Connection.PersistClassification | packages/storage/src/classify-persister.ts:106-290 | commit first, rename second: either both, or the row only, or nothing; without faults both exactly for an unclassified row with a body file |
| IndexStore.SoloInserts | packages/storage/src/index-persister.ts:147-172 | inserting the edges one step at a time stages what the insert loop stages |
| IndexStore.SoloIndexing | packages/pipeline/src/retrieval-orchestrator.ts:199-271 | left alone, a worker of the step machine commits exactly what the orchestrator commits |
| DrainLock.FaithfulRunsExclude | packages/pipeline/src/drain-lock.ts:53-143 | if every steal unlinks the file it read, at most one process ever has an unreleased handle, through any crashes and failing calls |
| DrainLock.GuardedRunsExclude | packages/pipeline/src/drain-lock.ts:53-143 | the same if every steal meets the guard of the exact condition |
| DrainLock.FaithfulRunsAreGuarded | packages/pipeline/src/drain-lock.ts:78-99 | unlinking the very file that was read always meets the guard |
| DrainLock.ReleaseRemovesOwn | packages/pipeline/src/drain-lock.ts:112-143 | a release unlinks the releaser's own file and a repeated one does nothing |
| DrainLock.QuietRunsAreFaithful | packages/pipeline/src/drain-lock.ts:78-99 | steals are faithful when nobody creates the file while another process is between read and unlink |
| DrainLock.OrderlyRunsAreFaithful | packages/pipeline/src/drain-lock.ts:78-99 | steals are faithful when steal sections do not overlap and no process dies between another's read of its pid and the probe |
| DrainLock.StealSafeIff | packages/pipeline/src/drain-lock.ts:89-98 | before the unlink of a steal: every continuation whose later steals meet the guard keeps mutual exclusion, if and only if no other live process holds the lock, has just created the file, or is about to unlink it |
| DrainLock.SecureIffGuarded | packages/pipeline/src/drain-lock.ts:53-143 | a run keeps mutual exclusion after each of its steps and in all their guarded continuations, if and only if all its steals meet the guard |
| DrainLock.OverlappingThieves | packages/pipeline/src/drain-lock.ts:89-98 | a run with two overlapping thieves in which both hold the lock |
| DrainLock.LateDeath | packages/pipeline/src/drain-lock.ts:34-44 | a run with a single thief in which two processes hold the lock |
| DrainLock.LoneAcquirer | packages/pipeline/src/drain-lock.ts:53-110 | undisturbed, a process gets the lock exactly when there is no file or it names a dead foreign pid, and otherwise leaves it alone |
| DrainLock.Handle.Release | packages/pipeline/src/drain-lock.ts:118-126 | the first release removes the file unless the unlink fails, a later one changes nothing, be it the owner or the abort listener |
| DrainLock.LockPath.AcquireDrainLock | packages/pipeline/src/drain-lock.ts:53-143 | a handle is given only when the lock is obtainable, and always then if no call fails; contention leaves the file alone; a failed create, write or close throws and leaves the file as stated; an aborted signal releases at once; and the outcome is that of a run of the step machine |
| DrainLock.LockPath.Contend | packages/pipeline/src/drain-lock.ts:78-107 | read, probe, steal and the one further attempt, as code and as a run of the step machine |
| DrainLock.LockPath.TryCreate | packages/pipeline/src/drain-lock.ts:65-76 | exclusive create, write and close with each failure, as code and as a run of the step machine |
| Lake.HashesUnique | packages/storage/src/document-writer.ts:97-137 | no two rows share a hash |
| Lake.FreshId | packages/pipeline/src/drain-orchestrator.ts:62-64 | a content without a row of its hash has no row of its id either, so writing its body file overwrites no committed one |
| Lake.EvolvesTransitive | packages/pipeline/src/drain-orchestrator.ts:409-461 | what single ingest steps may do composes to what any sequence of them may do |
| Lake.ChangesConserve | packages/pipeline/src/drain-orchestrator.ts:384-463 | over any sequence of the single changes ingest and classification consist of, hence after a crash anywhere: rows, body files and sources stay in order, no row goes away, and a lake without name clashes keeps exactly its contents |
| Lake.StoringIsPossible | packages/pipeline/src/drain-orchestrator.ts:90-294 | from any lake the changes of an undisturbed ingest of a new content are possible one after the other and end with its row, body file and processed source |
| Lake.RejectingIsPossible | packages/pipeline/src/failure-lane.ts:51-128 | so are copy, removal and sidecar, which leave the file in failed/ beside its sidecar |
| Lake.RestoreKeepsIff | packages/pipeline/src/drain-orchestrator.ts:495-513 | restoring a leftover to the inbox loses nothing if and only if its name is free there or the overwritten content is held in another place |
| Lake.RestoreLosesContent | packages/pipeline/src/drain-orchestrator.ts:500-502 | for any two contents under one name, in pending/ and in inbox/, the restore loses the newer one |
| Lake.ToPendingKeepsIff | packages/pipeline/src/drain-orchestrator.ts:73-83 | the rename into pending/ loses nothing if and only if its target is free or the overwritten content is held in another place |
| Lake.FallbackLosesContent | packages/pipeline/src/drain-orchestrator.ts:80-83 | the fallback to the plain name, after the rename to the tagged one threw, loses the older of two contents |
| Lake.SidecarKeepsIff | packages/pipeline/src/failure-lane.ts:57-69 | writing a sidecar loses nothing if and only if no routed file has its name or that file's content is held in another place |
| Lake.SidecarLosesContent | packages/pipeline/src/failure-lane.ts:57-115 | a concrete lake in which a sidecar overwrites a content held nowhere else |
| Lake.CopyEvolves | packages/pipeline/src/failure-lane.ts:74-83 | a copy to failed/ keeps rows, queue and contents, also when the process dies before the unlink |
| Lake.RemoveCopiedEvolves | packages/pipeline/src/failure-lane.ts:82-83 | unlinking a copied file loses nothing |
| Lake.ToProcessedEvolves | packages/pipeline/src/persister.ts:177-179 | the rename to processed/ loses nothing although the row is not committed, and overwrites at most the same content |
| Lake.CommitEvolves | packages/pipeline/src/persister.ts:157-203 | the commit adds one row of the right id, with its body file and its source in processed/ |
| Lake.OverlayIs | packages/extract/src/normalize-markdown.ts:79-90 | the frontmatter first written has the five canonical keys with their values and every other key of the dropped file |
| Lake.MergeKeeps | packages/storage/src/classify-persister.ts:142-167 | after the classifier's merge the four keys have the four values given, the nine forbidden ones are gone, every other key is as it was, among them the id, and no key is added |
| Lake.ClassifiedFacets | packages/storage/src/classify-persister.ts:142-167 | what a reader finds after a classification: the four values, the canonical keys as first written, no provenance, no key that was neither there nor set |
| Ingest.Corpus.RouteToFailed | packages/pipeline/src/failure-lane.ts:51-128 | routing a file that may have vanished keeps the lake valid and every content, wherever it is cut short |
| Ingest.Corpus.MoveToPending | packages/pipeline/src/drain-orchestrator.ts:67-84 | the file is in pending/ under the returned name, its own or, if that is taken, a hex tag, a dash and its own, or nothing changed; without faults it never lands on a leftover |
| Ingest.Corpus.RouteIfPresent | packages/pipeline/src/failure-lane.ts:51-128 | without faults a rejected file is in failed/ under a free name with its sidecar, and nothing else has changed |
| Ingest.RejectedIsKept | packages/pipeline/src/failure-lane.ts:51-128 | a rejected inbox file is under a new name in failed/ with a sidecar beside it, and what was there before stays unless it had the sidecar's name |
| Ingest.Corpus.Persist | packages/pipeline/src/persister.ts:72-250 | a stored result states rows, directories and body file exactly; an error or a throw leaves the rows as they were; a crash anywhere leaves a valid lake; without faults it is stored, and an error leaves no body file behind unless removing it fails |
| Ingest.Corpus.ProcessOneFile | packages/pipeline/src/drain-orchestrator.ts:90-294 | one row more exactly for an ingested file, whose hash was new; without faults a file that is there and passes the gates is ingested if and only if no row has its digest, with its row, body file and processed source, and deduplicated if and only if one has; any other is in failed/ with its sidecar |
| Ingest.Corpus.ProcessPendingFile | packages/pipeline/src/drain-orchestrator.ts:482-515 | a leftover goes through the same gates with the same outcomes, exactly determined without faults |
| Ingest.Corpus.Drain | packages/pipeline/src/drain-orchestrator.ts:356-475 | ingested + deduplicated + failed is the number of files listed and rows grow by exactly the ingested ones; without faults inbox/ and pending/ end empty, the number ingested is that of the different new valid contents, and each of them has its row, body file and processed source; a contended drain changes nothing; a drain cut short leaves a valid lake |
| Ingest.Corpus.RewriteBody | packages/storage/src/classify-persister.ts:128-173 | the document's body file has the four facets it is given and keeps every other permitted key, no other body file changes, and the lake stays valid |
| Ingest.Corpus.FetchDocument | packages/storage/src/document-adapter.ts:39-103 | on any lake a missing row, a missing body file and a body file of another id are told apart exactly; in a valid lake every stored document is found |
| Ingest.Corpus.Sessions | packages/pipeline/src/drain-orchestrator.ts:356-475 | over any sequence of drops, drains with crashes and classifier rewrites, the contents held are the initial ones plus those of exactly the drops whose name was free (not in inbox/ or pending/, not a sidecar name), and no row goes away |
| Ingest.RedrainAddsNothing | packages/pipeline/src/drain-orchestrator.ts:409-461 | draining contents that are all stored leaves the rows as they were |
| Recovery.FirstStartIs | packages/pipeline/src/recovery-scanner.ts:347-390 | first and last start of a key bound all its starts, and exist exactly when one does |
| Recovery.OrphanKeysExact | packages/pipeline/src/recovery-scanner.ts:347-422 | the orphans are exactly the keys started and neither completed nor failed, each once, in the order of first start |
| Recovery.OrphanReport | packages/pipeline/src/recovery-scanner.ts:363-422 | each is reported with its own stage and id and the times of its first and last start |
| Recovery.KeyInjective | packages/pipeline/src/recovery-scanner.ts:108-110 | two keys agree exactly when stage and id do, a missing id read as the text "(null)" |
| Recovery.RecoveryEventsAreNeutral | packages/pipeline/src/recovery-scanner.ts:83-106 | no event the scan writes is a session marker, a start or a completion |
| Recovery.OrphansSkipNeutral | packages/pipeline/src/recovery-scanner.ts:354-389 | one of the scan's own events at the end of the window changes no reported orphan |
| Recovery.RescanFindsTheSame | packages/pipeline/src/recovery-scanner.ts:282-501 | a second scan over the events extended by the first scan's own finds the same session and the same orphans |
| RecoveryTheorems.TablesAgree | packages/pipeline/src/recovery-scanner.ts:88-106 | which event names begin a stage and which end it |
| RecoveryTheorems.OrphanIff | packages/pipeline/src/recovery-scanner.ts:347-422 | in event names and ids: a stage of a document is reported exactly when the session began it and neither completed nor failed it |
| RecoveryTheorems.BasenameIs | packages/pipeline/src/recovery-scanner.ts:368-371 | the inbox name is what follows the last slash of the logged path |
| RecoveryTheorems.ResumedIff | packages/pipeline/src/recovery-resumability.ts:62-97 | a reported orphan of a later stage is always resumable, and one of the ingest stage exactly when the first of its starts that carries a file names one that is in the inbox |
| RecoveryScan.FindBoundary | packages/pipeline/src/recovery-scanner.ts:282-290 | the backward loop finds the last session marker |
| RecoveryScan.BuildMaps | packages/pipeline/src/recovery-scanner.ts:347-401 | the two maps hold the started keys in first-start order with their entries, and the completed keys |
| RecoveryScan.CollectOrphans | packages/pipeline/src/recovery-scanner.ts:409-422 | the loop over the map collects exactly the declaratively defined orphans |
| RecoveryScan.Dispatch | packages/pipeline/src/recovery-scanner.ts:424-501 | each orphan is resumed or failed as the matrix says, its discovery and its fate are logged in order, and the counters add up to the reports; a throw happens only at an orphan that is not resumable, when sidecars can fail |
| RecoveryScan.NullInSessionIs | packages/pipeline/src/recovery-scanner.ts:308-319 | in terms of lines: the null line that stops a scan is one that a session marker precedes and none follows |
| RecoveryScan.NullThrowIff | packages/pipeline/src/recovery-scanner.ts:308-354 | when nothing fails from outside, the scan throws if and only if the lock is free, there is a log, and a null line follows its last session marker |
| RecoveryScan.NullLineThrows | packages/pipeline/src/recovery-scanner.ts:308-319 | the log of a session marker and one null line makes the scan throw; with the two lines swapped it finishes |
| RecoveryScan.RunRecoveryScan | packages/pipeline/src/recovery-scanner.ts:133-546 | the scan ends as it would undisturbed, or by an abort, another failing system call, or a sidecar that cannot be written for an orphan that is not resumable; a finished one reports exactly the orphans of the last session, each resumed unless it is an ingest whose file is not in the inbox; the aborted ones are exactly those, resumed + aborted equals the number of orphans, and the events it appends are exactly one for each malformed line, a re-entry if the session has an interrupted scan, its start, each orphan with its fate, and its completion; after that the session has no interrupted scan |
| RecoveryScan.RescanOfTheLog | packages/pipeline/src/recovery-scanner.ts:133-546 | the same stability for the log file, with its blank and malformed lines |
| Fusion.Accumulate | packages/index/src/fusion.ts:57-74 | the map holds, for every listed document in order of first listing, its reciprocal-rank sum and last rank by kind |
| Fusion.FuseRrf | packages/index/src/fusion.ts:54-88 | map, sort and cut return the first `limit` of the ranking by weighted sum |
| Fusion.RankingIs | packages/index/src/fusion.ts:76-86 | the ranking is descending and has every listed document exactly once with its weighted sum |
| Fusion.FusedList | packages/index/src/fusion.ts:54-88 | the result is sorted and duplicate-free, and no omitted document scores above a returned one |
| Fusion.LimitIsPrefix | packages/index/src/fusion.ts:87-87 | a smaller limit returns a prefix of the result for a larger one |
| FusionTheorems.ScoresIgnoreSignalOrder | packages/index/src/fusion.ts:63-74 | permuting the signals changes no score and no candidate |
| FusionTheorems.ReturnedScoresIgnoreSignalOrder | packages/index/src/fusion.ts:54-88 | permuting the signals leaves the returned list of scores the same, ties and limit included |
| FusionTheorems.FailedSignalsDoNotMatter | packages/index/src/fusion.ts:64-64 | removing the failed signals changes nothing |
| FusionTheorems.RrfIsParts | packages/index/src/fusion.ts:63-74 | the accumulated sum is the textbook sum of 1/(k + rank) over the succeeded signals that list the document |
| FusionTheorems.PartInReciprocals | packages/index/src/fusion.ts:63-72 | a signal contributes 1/(k + rank) if it succeeded and lists the document, and nothing otherwise |
| FusionTheorems.HitScores | packages/index/src/fusion.ts:76-84 | the score of a returned document is that sum times its entry in the map of weights, or the sum itself without an entry |
| FusionTheorems.HeavierIsAhead | packages/index/src/fusion.ts:76-87 | of two documents with equal sums, the one with the larger entry is returned, and ahead, whenever the other is |
| FusionTheorems.TiesAsListed | packages/index/src/fusion.ts:57-87 | documents with equal scores are returned in the order in which the signals first listed them |
| FusionTheorems.HitRanks | packages/index/src/fusion.ts:63-84 | a hit names a rank for exactly the kinds of succeeded signals that list the document, and it is a rank one of them gave it |
| FusionTheorems.DominanceScores | packages/index/src/fusion.ts:63-85 | ranked no worse everywhere, better somewhere and weighted no less gives a strictly higher score |
| FusionTheorems.DominantIsAhead | packages/index/src/fusion.ts:63-87 | such a document is returned, and ahead, whenever the dominated one is returned |
| FusionTheorems.ManyListsBeatFew | packages/index/src/fusion.ts:63-74 | m listings within the top K beat n listings whenever m(k + 1) > n(k + K) |
| FusionTheorems.ThreeListsBeatOne | packages/index/src/search.ts:455-461 | with k = 60 and lists of 64, a document in all three retrieval lists beats one in exactly one, confidence and weight no worse |
| TierCascade.DedupIs | packages/index/src/tier-orchestrator.ts:144-151 | the merge keeps of every URI exactly the first hit |
| TierCascade.EarlierTiersWin | packages/index/src/tier-orchestrator.ts:144-151 | a hit is merged exactly if it is the first of its URI in the answer of the first tier that found the URI at all |
| TierCascade.Merge | packages/index/src/tier-orchestrator.ts:144-154 | merging one tier's hits extends the dedup and counts the new URIs |
| TierCascade.DeepestTier | packages/index/src/tier-orchestrator.ts:328-338 | the label returned is the deepest of the tracked tier and the hits' labels |
| TierCascade.RunTieredSearch | packages/index/src/tier-orchestrator.ts:65-234 | the tiers are asked in the order hybrid, bm25, catalog, file system; the hits are the first `limit` of the dedup of the merged tiers; undisturbed, the cascade stops after the first tier that did not throw and left at least `minResults` different URIs, else after all four |
| TierCascade.LabelsBounded | packages/index/src/tier-orchestrator.ts:222-223 | with own labels no merged hit is labelled deeper than the deepest tier that added one |
| TierCascade.DeepestAddingIs | packages/index/src/tier-orchestrator.ts:152-154 | the tier reported added a new URI and no later one did; hybrid if none did |
| Frontmatter.ParseMarkdownWithFrontmatter | packages/contracts/src/markdown-frontmatter.ts:37-93 | the scanning loop computes the line-based parser with all its error cases |
| Frontmatter.RoundTrip | packages/contracts/src/markdown-frontmatter.ts:95-102 | parsing a printed document returns exactly its body, `---` lines included, and its frontmatter if and only if the YAML library reads back its output without the last newline |
| Frontmatter.PrintedParses | packages/contracts/src/markdown-frontmatter.ts:37-102 | the parser takes a printed document apart at the lines where it was put together |
| Frontmatter.RewriteKeepsBody | packages/storage/src/classify-persister.ts:128-173 | parse, merge and print succeed exactly when the parse does and keep the body; the frontmatter becomes the merge exactly when the library reads it back |
| Frontmatter.IndexOfIsLine | packages/pipeline/src/classify-stage.ts:183-185 | the first newline-delimiter-newline is the first delimiter line that another line follows |
| Frontmatter.StripByLines | packages/pipeline/src/classify-stage.ts:181-186 | what the index-based stripper returns, in terms of lines |
| Frontmatter.StripAgreesIff | packages/pipeline/src/classify-stage.ts:181-186 | the stripper gives the parser's body if and only if there is no opening delimiter or the block is non-empty and closed before the last line |
| Frontmatter.EmptyBlockDiffers | packages/pipeline/src/classify-stage.ts:181-186 | on an empty block the parser finds the body and the stripper leaves the whole text |
| Frontmatter.LastLineDiffers | packages/pipeline/src/classify-stage.ts:181-186 | with the closing delimiter in the last line the parser finds an empty body and the stripper leaves the text |
| Frontmatter.UnterminatedDiffers | packages/contracts/src/markdown-frontmatter.ts:37-93 | without a closing delimiter the parser fails and the stripper leaves the text |
| Frontmatter.StripPrinted | packages/pipeline/src/classify-stage.ts:181-186 | on every printed file the stripper returns the body |
| Catalog.TruncateCodepoints | packages/storage/src/catalog-md-generator.ts:38-47 | the loop over code points computes the recursive cut |
| Catalog.TruncatedIsPrefix | packages/storage/src/catalog-md-generator.ts:38-47 | the cut is a prefix of whole code points, `max` of them or all |
| Catalog.CutKeepsPairs | packages/storage/src/catalog-md-generator.ts:38-47 | the cut never separates the surrogates of a pair (The Unicode Standard, section 3.9) |
| Catalog.PointsCounted | packages/storage/src/catalog-md-generator.ts:38-47 | a surrogate pair counts as one code point and every other unit as one |
| Catalog.LineBreakBecomesSpace | packages/storage/src/catalog-md-generator.ts:50-55 | a line feed, with the carriage return right before it, becomes exactly one space, and what stands around it is converted for itself |
| Catalog.EscapedUnits | packages/storage/src/catalog-md-generator.ts:50-55 | escaping then changes bars alone, each to U+2016, and a field without line feeds has no break to replace |
| Catalog.LineLayout | packages/storage/src/catalog-md-generator.ts:65-75 | a line is id, title, domain, type and the cut summary with a spaced bar between two of them and a line feed at the end |
| Catalog.FieldsParse | packages/index/src/catalog-grep-tier.ts:161-179 | four fields without bars and any fifth parse if and only if the first is an id and neither domain nor type is blank; separators in the fifth belong to the summary |
| Catalog.FewBarsFail | packages/index/src/catalog-grep-tier.ts:161-163 | a line with fewer than four bars does not parse |
| Catalog.EscapeUnescape | packages/index/src/catalog-grep-tier.ts:161-183 | a reader recovers a field up to outer space, newlines and the double bar |
| Catalog.RecoveredExactIff | packages/storage/src/catalog-md-generator.ts:50-55 | the field comes back unchanged if and only if it has no newline, no double bar and no outer space |
| Catalog.LineRoundTrip | packages/index/src/catalog-grep-tier.ts:161-179 | a printed line parses exactly when its domain is not blank, and gives the recovered record |
| Catalog.FileRoundTrip | packages/storage/src/catalog-md-generator.ts:65-75 | splitting and parsing a file of printed lines gives the recovered records in order |
| Catalog.FileRoundTripExact | packages/storage/src/catalog-md-generator.ts:65-75 | and the records themselves if and only if every field is trimmed, has no newline and no double bar, and no summary is longer than 200 code points |
| Catalog.HasLineIff | packages/storage/src/catalog-md-generator.ts:79-92 | a file has a line for an id exactly if it starts with the id and a space or has them right after a line feed |
| Catalog.CatalogFile.ContainsDocId | packages/storage/src/catalog-md-generator.ts:79-92 | the scan finds exactly the lines that start with the id and a space |
| Catalog.CatalogFile.AppendCatalogLine | packages/storage/src/catalog-md-generator.ts:111-141 | the file gains the document's line unless it has one; only a failing read or write keeps it from that, and leaves the file as it was |
| Catalog.AppendKeepsOneLinePerId | packages/storage/src/catalog-md-generator.ts:111-141 | an append leaves earlier text untouched, gives the id a line, and no id a second one |
| Catalog.AppendsKeepOneLinePerId | packages/storage/src/catalog-md-generator.ts:111-141 | the same over any sequence of appends, after which every document has its line |
| DrainTrigger.OneDrainAtATime | packages/daemon/src/index.ts:298-328 | in every interleaving at most one drain loop is open and the in-flight variable says so |
| DrainTrigger.NoLostWakeup | packages/daemon/src/index.ts:298-328 | the pending flag is down exactly when every trigger was followed by a start; with no loop open that is so unless the daemon was aborted or the last loop ended by a rejection |
| DrainTrigger.OpenLoopServes | packages/daemon/src/index.ts:303-326 | an open loop that reaches its condition without abort or rejection serves every trigger before it |
| DrainTrigger.NextTriggerServes | packages/daemon/src/index.ts:298-304 | whatever was lost before, the next trigger with no loop open serves it |
| DrainTrigger.ExceptionsAreReal | packages/daemon/src/index.ts:322-325 | two runs in which a rejection, respectively an abort, leaves a trigger without a start |
| DrainTrigger.Daemon.RunDrain | packages/daemon/src/index.ts:298-328 | the do-while loop, with arbitrary callbacks at each suspension, runs a schedule of the step machine and clears the in-flight variable |
| ClassifyBatch.ComesToOne | packages/pipeline/src/classify-stage.ts:321-546 | every document comes to exactly one outcome with at most 1 + `classifyRetryMaxAttempts` model calls; only schema failures are retried |
| ClassifyBatch.ClassifyStage | packages/pipeline/src/classify-stage.ts:249-650 | the attempt loop reaches that outcome; unavailable, unknown and persist failures count, success resets, and only an unavailable or unknown port error can halt; an abort seen by the persister throws |
| ClassifyBatch.FailuresSinceSuccess | packages/pipeline/src/classify-circuit-breaker.ts:24-56 | the counter is the number of unreachable-model and persist failures since the last success |
| ClassifyBatch.EndsIff | packages/pipeline/src/classify-stage.ts:351-396 | a batch ends at a document that threw, and at an unreachable model exactly if that is at least the third such failure since the last success |
| ClassifyBatch.ClassifiedsCount | packages/cli/src/reenrich-command.ts:131-187 | the number of classified documents in the summary counts exactly those outcomes |
| ClassifyBatch.OthersLeaveTheCounter | packages/pipeline/src/classify-stage.ts:398-546 | load, schema, vocabulary and abort outcomes leave the counter alone |
| ClassifyBatch.NeedNotBeAdjacent | packages/pipeline/src/classify-circuit-breaker.ts:33-55 | three unreachable-model outcomes trip the breaker although other failures lie between them |
| ClassifyBatch.CircuitBreaker.RecordFailure | packages/pipeline/src/classify-circuit-breaker.ts:48-51 | counts one failure and remembers it |
| ClassifyBatch.CircuitBreaker.RecordSuccess | packages/pipeline/src/classify-circuit-breaker.ts:53-55 | resets the counter and keeps the last error |
| ClassifyBatch.StopsAtOne | packages/cli/src/reenrich-command.ts:131-187 | the place where a batch stops is determined: the first outcome that trips the breaker or throws, the abort, or the end |
| ClassifyBatch.PersistFailuresDoNotHalt | packages/pipeline/src/classify-stage.ts:561-592 | a batch without an unreachable model and without an abort runs to its end |
| ClassifyBatch.HaltBounds | packages/pipeline/src/classify-stage.ts:351-396 | a halt needs as many charged outcomes as the threshold, and without a success no batch goes past that many unreachable-model outcomes |
| ClassifyBatch.TotalCallsBounded | packages/pipeline/src/classify-stage.ts:327-329 | a batch makes at most 1 + retries model calls for each document it reaches |
| ClassifyBatch.RunReenrichCommand | packages/cli/src/reenrich-command.ts:75-194 | the loop stops exactly there, the summary counts exactly the processed documents, an abort seen on entry or by the persister throws, and a dry run, contention or an early error asks the model nothing |
| ClassifyBatch.RunClassifyPass | packages/daemon/src/index.ts:211-296 | the daemon's pass stops at the same place as the command's loop and hands the retrieval stage exactly the documents it classified |
| EngagementReport.Compared | packages/cli/src/engagement/engagement-proxy-report-args-parser.ts:121-127 | the check that rejects a window is exactly the negation of the schema's ordering of its ends |
| EngagementReport.LessIs | packages/cli/src/engagement/engagement-proxy-report-args-parser.ts:121-127 | timestamps are compared at their first difference, a proper prefix coming first |
| EngagementReport.WellFormedText | packages/cli/src/engagement/engagement-proxy-report-args-parser.ts:25-26 | a text cut at the places of a timestamp is accepted exactly if its pieces are digits and its rest is a zone with or without a fraction |
| EngagementReport.ZoneText | packages/cli/src/engagement/engagement-proxy-report-args-parser.ts:25-26 | the zone is Z or a signed offset of two and two digits, and a fraction has at least one digit |
| EngagementReport.ParseArguments | packages/cli/src/engagement/engagement-proxy-report-args-parser.ts:95-144 | which error comes first: malformed since, malformed until, reversed window, then format, path and timeout; none exactly when all are accepted |
| EngagementReport.InWindowIs | packages/cli/src/engagement/telemetry-log-scanner.ts:146-224 | an event is looked at exactly when its line is well-formed and its timestamp lies in the window |
| EngagementReport.BadLinesCount | packages/cli/src/engagement/telemetry-log-scanner.ts:146-224 | the parse errors are the lines that are not JSON and those whose event the schema rejects |
| EngagementReport.FindsAreFirsts | packages/cli/src/engagement/report-aggregator.ts:57-73 | the queries kept are exactly the first event of each request, each request once |
| EngagementReport.PercentileRises | packages/cli/src/engagement/report-aggregator.ts:41-54 | the percentile is monotone in p and lies between the least and the greatest sample |
| EngagementReport.PercentileAtSample | packages/cli/src/engagement/report-aggregator.ts:41-54 | it passes through every sample |
| EngagementReport.SortedIs | packages/cli/src/engagement/report-aggregator.ts:80-80 | the latencies are sorted and the same multiset |
| EngagementReport.AggregateReport | packages/cli/src/engagement/report-aggregator.ts:56-117 | the loops over maps, set and counters compute the declared aggregate |
| EngagementReport.CountsAre | packages/cli/src/engagement/report-aggregator.ts:57-104 | queries, zero-result queries and tiers are counted over exactly the events that are the first find of their request |
| EngagementReport.LatenciesAre | packages/cli/src/engagement/report-aggregator.ts:41-83 | the median is the middle duration or the mean of the two in the middle, and the other latency has 19 of 20 parts of the steps between the sorted durations below it |
| EngagementReport.CountsSum | packages/cli/src/engagement/report-aggregator.ts:85-104 | tier counts sum to the number of distinct queries; zero-result and hash counts do not exceed it |
| EngagementReport.LatenciesBounded | packages/cli/src/engagement/report-aggregator.ts:76-83 | both latencies lie between two real query durations, the median not above the 95th percentile |
| EngagementReport.EveryReportMeetsSchema | packages/contracts/src/engagement.ts:271-305 | for any events the report meets all six refinements if and only if the window is ordered |
| EngagementReport.SchemaTiesLatencies | packages/contracts/src/engagement.ts:297-305 | no report passes that has a latency without queries or lacks one with them |
| EngagementReport.RepeatChangesNothing | packages/cli/src/engagement/report-aggregator.ts:57-74 | an event that repeats a request already seen changes nothing |
| EngagementReport.ReportCommand | packages/cli/src/engagement-proxy-command.ts:45-92 | a report comes out exactly when the arguments are accepted and the log can be read, its validation never fails, it passes exactly at five queries and one acceptance, signals below three queries, and counts the bad lines |

## Left out

- Ollama, embeddings, telemetry records, MCP transport, the file watcher, rendering and argument parsing: I/O and libraries, modelled as arbitrary inputs or not at all. A failing telemetry write is not modelled.
- Clocks and timers: a timeout or an abort is a nondeterministic choice. A scratch-directory callback that keeps running after its abort is outside the model.
- Ingest.Corpus.Drain: does not model the explicit list of files a caller may pass, nor a second drain that starts while an aborted one, whose lock is released, still routes files.
- Ingest.Corpus.Sessions: covers drops whose name is not already in inbox/ or pending/ and does not end in `.error.json`, because the code loses content otherwise (see the exact conditions in `Lake`).
- Ingest.Corpus.FetchDocument: leaves out the check of the id's form before the query, which the id of every row passes, and a body file that does not parse.
- Lake.CommitEvolves: does not say that every processed file has a row; a crash between rename and COMMIT breaks that.
- RecoveryScan.RunRecoveryScan: is about a given log. The daemon writes its session marker before it scans, so that a new session recovers the previous one is not claimed.
- Catalog.CatalogFile.AppendCatalogLine: does not model two appenders at once, nor the replacement of a lone surrogate when the text is encoded as UTF-8.
- Catalog regeneration from the database and agreement of catalog and database: the regenerator selects a column the schema shown does not have.
- The body text of a document in `Lifecycle`, which has only the facets of each body file; `Ingest` and `Frontmatter` cover the file itself.
- Full-text ranking, cosine internals, vector encoding and the YAML grammar: abstract functions with the assumptions stated above.
- Signal partitioning, the confidence weights and snippets of the hybrid search: only easy members. The file-system search tier is an arbitrary hit list.
- Filters: the catalog and file-system tiers ignore them, so soundness of filters over the cascade does not hold.
- Float rounding: scores, weights and percentiles are reals.
- EngagementReport.ReportCommand: takes the lines of all files in the order they are scanned; which rotated files are scanned, by their modification time, is not part of this model.
- Daemon shutdown, the egress hook, install flows and lint rules.
