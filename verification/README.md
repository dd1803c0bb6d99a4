# Models and proofs for the second-brain pipeline

This project models the parts of the second-brain repository that carry its state from one refresh
to the next, and proves what they keep: the refresh cycle and its worker pool, the insight graph,
the published read models, clustering and digest selection, the transcript ledger, the graph
outbox, the printers and parsers around them, and the undo history and the layout of the canvas.

`dafny verify dfyconfig.toml` checks the whole project.

| files | what they model |
|---|---|
| `Basics`, `Text`, `Words`, `Sorting` | options, strings as the Go library treats them, stable sorting |
| `InsightGraph`, `GreedySelection`, `InsightGraphEdges`, `RepeatedNodeID`, `GraphLimit` | the edges of the insight graph and their limits |
| `AppStates`, `ReadModelCache`, `ReadModelReaders`, `ReadModelPublisher`, `PublishedStates` | the states that are published and their run IDs, the publish/read protocol, the program that takes part in it, and what readers see |
| `WorkerPool` | the concurrent processing of candidates |
| `SourceMaterial`, `RefreshCycle`, `RefreshTheorems`, `RefreshConservation`, `RefreshNotes`, `RefreshQuiescence`, `RefreshLocalStore` | one refresh cycle and all histories of cycles |
| `InsightClusters`, `ClusterTheorems`, `ClusterRanking`, `DigestSelection`, `DigestTheorems` | clustering and the choice of a digest |
| `TranscriptLedger` | claims of transcript requests |
| `GraphOutbox`, `OutboxProtocol` | delivery of events to the graph |
| `Timestamps`, `TimeMarkers`, `TimeMarkerTheorems`, `TimeMarkerRoundTrip` | transcripts with timestamps, printed and read |
| `InlineMarkdown`, `InlineHtml` | links and bold text of a digest |
| `CanvasHistory`, `GraphLabels`, `GraphLayout` | undo and redo, label wrapping, the grid layout |

Code that changes things step by step is a method, or a class with methods, whose contract equates
the outcome with a specification function; the theorems are lemmas about these functions and about
every schedule of the protocols' steps. Where a promise does not hold of the code, the exact
condition is proved next to a witness:

- the degree cap of the graph fails exactly for a node with six other ends when an edge from the
  node to itself comes up (`DegreeOverflow`, `RepeatedIDOverflows`); distinct node IDs rule that out;
- node IDs without the separator share an edge ID exactly if a colon can be moved across it
  (`PairIDsEqualExactly`, `PairIDCollision`);
- a run ID fixes four of the ten blobs that are published under it, and the others exactly as far as
  inputs agree that it leaves out (`RunIDLeavesBlobs`, `RepublishedRunDiffers`);
- a read of the graph misses although the blob is there, exactly if the run has no result
  (`HitsExactly`, `FirstGraphReadMisses`, `FreshInstallMisses`);
- an edited X post is served from the cached synthesis of its old capture, stays new for ever and
  is never synthesised again (`Quiescence`, `EditedForEver`, `EditedPost`);
- a cycle that cannot read the latest run forgets the sources that are not among its new candidates
  (`FailedLookupForgets`, `FailedLookupLoses`);
- two insights with one key may be in two clusters (`EqualKeysMeetExactly`, `EqualKeysMaySplit`);
- a bar in an insight's ID can keep the only X insight out of a digest (`SelectedX`, `BarHidesX`);
- a clock that goes back can close a month in which nothing was granted (`RefusedWithRoomExactly`,
  `BackwardClockRefuses`);
- owners with a colon in their IDs can share a ledger key with another owner (`KeyExact`, `KeysCollide`);
- a retried older event overwrites the attributes of a newer one in the graph, exactly if it is
  committed after it (`ShownExactly`, `AttributesDependOnSchedule`);
- timestamps from one hundred hours on are printed but not found again (`FoundUpToHundredHours`);
- the canvas shows what it would show without a limit exactly until a state out of reach is asked
  for (`LimitIsInvisibleExactly`, `LimitShows`);
- boxes of the layout can overlap exactly if a box may be higher than 101, as one with four lines
  is (`SafeExactly`, `WrappedLabelsCanOverlap`).

## Model

| member | source | states |
|---|---|---|
| `InsightGraph.FirstSharedGraphValue` | backend/internal/knowledge/insight_graph.go:286-310 | the loops over two lists of topics compute the specified shared value |
| `InsightGraph.FirstSharedMeaning` | backend/internal/knowledge/insight_graph.go:286-310 | a shared value is reported exactly if the lists have one in common, up to case and surrounding space |
| `InsightGraph.FirstSharedIsLeast` | backend/internal/knowledge/insight_graph.go:286-310 | it is the least of the shared values as the left list spells them last |
| `InsightGraph.FirstSharedSymmetric` | backend/internal/knowledge/insight_graph.go:286-310 | whether one is reported does not depend on the order of the lists |
| `InsightGraph.EdgeReasonExact` | backend/internal/knowledge/insight_graph.go:270-310 | two nodes are linked, with which reason, weight and caption, by the first of capture (3.0), topic (2.4), domain (1.4) and type (1.0) that they have in common up to case and surrounding space |
| `InsightGraph.EdgeReasonSymmetric` | backend/internal/knowledge/insight_graph.go:270-284 | link, reason and weight of a pair are the same from both sides |
| `InsightGraph.EdgeLeqTotalPreorder` | backend/internal/knowledge/insight_graph.go:242-253 | the comparison by falling weight, then label, source and target is a total preorder, so the sort is well defined |
| `InsightGraph.KeepEdges` | backend/internal/knowledge/insight_graph.go:254-268 | the loop over the ranked edges with its degree counters keeps what the greedy specification keeps |
| `InsightGraph.BuildInsightGraphEdges` | backend/internal/knowledge/insight_graph.go:217-268 | scanning all pairs, sorting and keeping edges gives the greedy selection from the ranked candidates |
| `InsightGraphEdges.CandidatesExact` | backend/internal/knowledge/insight_graph.go:217-241 | candidates are edges of linked pairs, each edge ID once, and every linked pair's ID is among them |
| `InsightGraphEdges.PairIDInjective` | backend/internal/knowledge/insight_graph.go:226-231 | distinct node IDs that contain no separator and do not end with a colon give each linked pair an edge ID of its own |
| `InsightGraphEdges.PairIDsEqualExactly` | backend/internal/knowledge/insight_graph.go:226-231 | with distinct node IDs that hold no separator two pairs have one edge ID if and only if they are one pair or their IDs differ by a colon moved across the separator |
| `InsightGraphEdges.PairIDCollision` | backend/internal/knowledge/insight_graph.go:226-231 | four distinct node IDs without the separator two of whose pairs have the same edge ID |
| `InsightGraphEdges.ReturnedEdges` | backend/internal/knowledge/insight_graph.go:217-268 | for any nodes: at most 650 edges, unique IDs, in sort order, all from the candidates, and degree at most 7 if node IDs are distinct |
| `InsightGraphEdges.StrongLinksFirst` | backend/internal/knowledge/insight_graph.go:217-268 | every returned edge joins two nodes for the strongest reason they share, with its weight, and edges come by captures, topics, domains and types, then by caption and ends |
| `InsightGraphEdges.OnlyStrongCrowdOut` | backend/internal/knowledge/insight_graph.go:254-268 | a linked pair is left out only if returned edges that are as strong or stronger reach the cap of 650 or fill one of its ends |
| `InsightGraphEdges.ReturnedWeight` | backend/internal/knowledge/insight_graph.go:217-268 | no selection of candidates within both caps weighs more than twice what is returned |
| `GreedySelection.KeptCaps` | backend/internal/knowledge/insight_graph.go:254-268 | at most 650 edges and degree at most 8, whatever the candidates |
| `GreedySelection.DegreeOverflow` | backend/internal/knowledge/insight_graph.go:254-268 | a node exceeds degree 7 if and only if an edge from it to itself comes up when it has six ends and there is room |
| `GreedySelection.DegreeCap` | backend/internal/knowledge/insight_graph.go:254-268 | without such edges every degree is at most 7 |
| `GreedySelection.DegreeCapFailsWithSelfLoop` | backend/internal/knowledge/insight_graph.go:254-268 | ranked edges for which a node ends with degree 8 |
| `RepeatedNodeID.TwinsOverflow` | backend/internal/knowledge/insight_graph.go:217-268 | so do the edges that are built for nodes of which two have one ID and six others share a capture with these |
| `RepeatedNodeID.RepeatedIDOverflows` | backend/internal/knowledge/insight_graph.go:217-268 | eight such nodes |
| `GreedySelection.DroppedOnlyWhenFull` | backend/internal/knowledge/insight_graph.go:254-268 | a candidate is dropped only if kept edges ranked before it reached the cap of 650 or filled one of its ends |
| `GreedySelection.AcceptedIsKept` | backend/internal/knowledge/insight_graph.go:254-268 | a candidate with room at its turn is in the result |
| `GreedySelection.KeptOrderedAndUnique` | backend/internal/knowledge/insight_graph.go:254-268 | the result stays in rank order with each edge ID once |
| `GreedySelection.PickedAreCovered` | backend/internal/knowledge/insight_graph.go:254-268 | every picked edge is kept or has an end that the kept edges filled, counted over all ends |
| `GreedySelection.HalfAsMany` | backend/internal/knowledge/insight_graph.go:254-268 | the greedy pass keeps at least half as many edges as any selection within the caps, whatever the ranking |
| `GreedySelection.SummationByParts` | backend/internal/knowledge/insight_graph.go:254-268 | a sequence none of whose prefixes has a negative total keeps its lead when its steps are weighted by falling weights |
| `GreedySelection.HalfOfAnyWeight` | backend/internal/knowledge/insight_graph.go:254-268 | greedy selection of ranked edges is at least half optimal in weight |
| `GraphLimit.LimitInsightGraphResponse` | backend/internal/knowledge/insight_graph.go:112-154 | the loops give the graph cut to the effective limit, with its statistics |
| `GraphLimit.CutTwice` | backend/internal/knowledge/insight_graph.go:112-154 | cutting to a and then to b is cutting to the smaller, in nodes, edges and statistics |
| `GraphLimit.LimitsCompose` | backend/internal/knowledge/insight_graph.go:112-154 | the same for limits outside of the allowed range |
| `GraphLimit.CutIsClosed` | backend/internal/knowledge/insight_graph.go:112-154 | edges keep joining listed nodes, no degree rises, and no edge between surviving nodes is lost |
| `GraphLimit.CutExactly` | backend/internal/knowledge/insight_graph.go:112-154 | the kept nodes are the first ones, up to the limit, which is 180 by default and 500 at most; the kept edges are those between them, as often and in the order as before; the total stays |
| `ReadModelCache.StepKeepsValid` | backend/internal/cache/rediscache/read_model_cache.go:446-475 | every command of every publisher and reader, every failure, crash and expiry keeps the protocol invariant |
| `ReadModelCache.ReachableValid` | backend/internal/cache/rediscache/read_model_cache.go:446-475 | so the invariant holds after every schedule, and histories only grow |
| `ReadModelCache.ManifestNamesWrittenRun` | backend/internal/cache/rediscache/read_model_cache.go:446-475 | the manifest never names a run whose ten blobs were not all stored before |
| `ReadModelCache.ReadsReturnPublishedValues` | backend/internal/cache/rediscache/read_model_cache.go:69-192 | a successful read returns only values published under the run of the manifest it read; the newsletter's digests are from that run or a later one |
| `ReadModelReaders.FoundExactly` | backend/internal/cache/rediscache/read_model_cache.go:69-304 | over every schedule a reader has found a blob if and only if a command of its own for it succeeded |
| `ReadModelReaders.ReadsFindAll` | backend/internal/cache/rediscache/read_model_cache.go:138-162 | without expiry and failures of its own a reader that returns has found exactly its blobs: one; the meta data and its blob; or meta data, newsletter and digests |
| `ReadModelReaders.ReadsFindWhatIsAnswered` | backend/internal/cache/rediscache/read_model_cache.go:138-162 | with them it has asked for all of these and found those it was answered |
| `ReadModelCache.ReadsAreNotTorn` | backend/internal/cache/rediscache/read_model_cache.go:69-192 | if publishers of one run agree on its meta data, and for the newsletter view on the newsletter, what a read returns from one installation is the content of one publisher, however they differ in other blobs |
| `ReadModelCache.HitsExactly` | backend/internal/cache/rediscache/read_model_cache.go:69-244 | without expiry and failed commands a reader that has a manifest misses if and only if it is after the graph and the stored graph has no insight graph |
| `ReadModelPublisher.Cache.PublishAppState` | backend/internal/cache/rediscache/read_model_cache.go:392-476 | one attempt leaves the specified blobs and manifest and reports success exactly if all commands were acknowledged |
| `ReadModelPublisher.Cache.PublishBestEffort` | backend/internal/knowledge/service.go:917-936 | up to three attempts, stopping at the first success or when the time is over; the store is that of the attempts in turn |
| `ReadModelPublisher.Cache.ReadBlob` | backend/internal/cache/rediscache/read_model_cache.go:69-84 | a read is the blob of the run the manifest names, or a miss |
| `ReadModelPublisher.PublishedCanBeRead` | backend/internal/cache/rediscache/read_model_cache.go:392-476 | after a success the manifest names the run and every blob is what was published |
| `ReadModelPublisher.AttemptIsSchedule` | backend/internal/cache/rediscache/read_model_cache.go:392-476 | an attempt of the program is a schedule of protocol steps with the same effect on the store |
| `ReadModelPublisher.BestEffortIsSchedule` | backend/internal/knowledge/service.go:917-936 | so are all attempts together, so that the program inherits what the protocol keeps |
| `AppStates.RunIDDetermines` | backend/internal/knowledge/read_model_cache.go:34-50 | two states have one run ID if and only if both or neither have a result, of the same time, and all digest versions are the same |
| `AppStates.VersionsAreEqual` | backend/internal/knowledge/read_model_cache.go:506-534 | which fields of a digest its version takes in |
| `AppStates.BlobsAgree` | backend/internal/knowledge/read_model_cache.go:386-465 | each small blob is the part of the latest result that it is named for, with written digests |
| `AppStates.AppStateAgrees` | backend/internal/knowledge/read_model_cache.go:59-75 | the app state consists of what the other blobs hold |
| `AppStates.GraphStatusExact` | backend/internal/knowledge/read_model_cache.go:536-544 | the status of the graph blob |
| `AppStates.RunIDFixesBlobs` | backend/internal/knowledge/read_model_cache.go:34-78 | states of one run share meta data, insights, bookmarks and videos |
| `AppStates.RunIDLeavesBlobs` | backend/internal/knowledge/read_model_cache.go:409-534 | and exactly on which further conditions each of the six other blobs |
| `AppStates.RunIDFixesCompact` | backend/internal/knowledge/read_model_cache.go:506-534 | but always the digests as a view shows them, without deliveries and references |
| `AppStates.RepublishedRunDiffers` | backend/internal/knowledge/read_model_cache.go:477-534 | two states of one run none of whose six other blobs are equal |
| `PublishedStates.BuiltReadsAreNotTorn` | backend/internal/cache/rediscache/read_model_cache.go:69-233 | so when what is published is built from results, no read but the newsletter view ever mixes two publications |
| `PublishedStates.NewsletterViewIsNotTorn` | backend/internal/cache/rediscache/read_model_cache.go:147-162 | and the newsletter view, if both its manifests name one run, shows what the state of one publisher shows |
| `PublishedStates.FirstGraphReadMisses` | backend/internal/cache/rediscache/read_model_cache.go:194-207 | after the first publication, nothing having failed, a read of the graph misses if and only if there is no result |
| `PublishedStates.FreshInstallMisses` | backend/internal/knowledge/service.go:337-347 | which is the case on a fresh installation, whose state is published as run "none" |
| `WorkerPool.WorkerCount` | backend/internal/knowledge/service.go:1437-1443 | with candidates there is at least one worker and there are no more workers than candidates |
| `WorkerPool.StepKeepsValid` | backend/internal/knowledge/service.go:1433-1462 | every step of feeder and workers keeps each index with one worker or with its result, processed once |
| `WorkerPool.NeverStuck` | backend/internal/knowledge/service.go:1433-1462 | before the wait returns some step can be taken |
| `WorkerPool.StepMakesProgress` | backend/internal/knowledge/service.go:1433-1462 | every step lowers a measure |
| `WorkerPool.PoolRefinesMap` | backend/internal/knowledge/service.go:1433-1462 | every scheduling ends after boundedly many steps with each index processed once and the slice equal to the sequential map |
| `SourceMaterial.MergeXBookmarks` | backend/internal/knowledge/refresh_material.go:126-147 | the loops with their set of IDs compute the specified merge |
| `SourceMaterial.MergeYouTubeItems` | backend/internal/knowledge/refresh_material.go:149-178 | the same for videos, whose cached entries are replaced by the previous ones first |
| `SourceMaterial.FirstOfEachExact` | backend/internal/knowledge/refresh_material.go:126-147 | each ID that is not blank is kept once, and none is lost |
| `SourceMaterial.FirstOfEachKeepsFirst` | backend/internal/knowledge/refresh_material.go:126-147 | what is kept of an ID is its first item |
| `SourceMaterial.MergeExact` | backend/internal/knowledge/refresh_material.go:126-147 | distinct fetched items come first and unchanged, then the previous items that were not fetched again |
| `SourceMaterial.VideoMergeExact` | backend/internal/knowledge/refresh_material.go:149-178 | an ID names the previous video exactly if it was not fetched or was fetched as cached |
| `RefreshCycle.FilterNewSourceCandidates` | backend/internal/knowledge/refresh_material.go:5-21 | the loop splits the candidates into new and known ones by their state |
| `RefreshCycle.SourceMaterialStatesFromResult` | backend/internal/knowledge/source_material.go:56-115 | the loop over a result's summaries gives the specified states |
| `RefreshCycle.SummariesExcludingLoop` | backend/internal/knowledge/refresh_material.go:219-231 | the loop drops the summaries of the given identities |
| `RefreshCycle.NotesExcludingLoop` | backend/internal/knowledge/refresh_material.go:233-259 | the same for insights and action items |
| `RefreshCycle.GroupBySource` | backend/internal/knowledge/refresh_material.go:60-82 | grouping gives each identity its own notes in order |
| `RefreshCycle.ProcessedSourcesFromResult` | backend/internal/knowledge/refresh_material.go:60-113 | the loop regroups a run into sources, each identity once |
| `RefreshCycle.Draft.AttachYouTubeTimeMarkers` | backend/internal/knowledge/service.go:1632-1639 | only the first video with the ID gets the markers |
| `RefreshCycle.Draft.AppendProcessedOutput` | backend/internal/knowledge/refresh_material.go:180-217 | what was processed is appended in order and nothing else changes but video markers |
| `RefreshCycle.Draft.MergePrevious` | backend/internal/knowledge/service.go:740-747 | the previous run is taken over except for the sources processed anew |
| `RefreshCycle.BuildResult` | backend/internal/knowledge/service.go:738-754 | the saved run and the sources for the store are the specified ones |
| `RefreshCycle.RunCycle` | backend/internal/knowledge/service.go:657-754 | all exits of a cycle: unchanged, failed, not saved or saved, on the conditions of the code |
| `RefreshTheorems.LocalStoreIsFaithful` | backend/internal/store/localfile/store.go:60-113 | what the local store returns for a key has that key's source, prompt and model |
| `RefreshTheorems.ProcessedMatches` | backend/internal/knowledge/service.go:1472-1532 | a processed source and its summary carry the candidate's source, prompt and model, cached or not |
| `RefreshTheorems.ProcessedIdentities` | backend/internal/knowledge/service.go:1396-1462 | candidates, processed sources and their summaries have the same identities in order |
| `RefreshTheorems.AppendedParts` | backend/internal/knowledge/refresh_material.go:180-217 | appending adds summaries at the end and keeps items and their IDs |
| `RefreshTheorems.ResultSummaries` | backend/internal/knowledge/service.go:738-748 | the saved summaries are what is left of the latest run, then the new ones |
| `RefreshTheorems.RegroupedIdentities` | backend/internal/knowledge/refresh_material.go:60-113 | regrouping gives each kept identity one source and loses none but the empty one |
| `RefreshTheorems.RegroupedSequence` | backend/internal/knowledge/refresh_material.go:60-113 | it lists the kept summaries' identities in order if and only if they are distinct and not empty |
| `RefreshTheorems.SaveSourcesMatchSummaries` | backend/internal/knowledge/service.go:738-748 | the identities handed to the store equal those of the saved summaries if and only if the summaries kept from the latest run are distinct and not empty |
| `RefreshConservation.RegroupRoundTrip` | backend/internal/knowledge/refresh_material.go:60-113 | regrouping and flattening keeps summaries in order and owned notes as a permutation stable within each source |
| `RefreshConservation.ConcatOwned` | backend/internal/knowledge/refresh_material.go:60-113 | concatenated bundles of distinct sources hold each source's notes in order and nothing else |
| `RefreshConservation.CycleConserves` | backend/internal/knowledge/service.go:738-754 | a saved run has each source once and summarises exactly the previous and the new sources |
| `RefreshConservation.CycleMerges` | backend/internal/knowledge/service.go:738-748 | its items are exactly the previous and the fetched ones, each once |
| `RefreshConservation.CachedVideosKeepTranscript` | backend/internal/knowledge/service.go:738-748 | a video fetched as cached, or not fetched, keeps its transcript and status through a saved cycle |
| `RefreshConservation.FailedLookupForgets` | backend/internal/knowledge/service.go:660-664 | after a failed lookup of the latest run its sources survive if and only if they are among the new candidates |
| `RefreshConservation.FailedLookupLoses` | backend/internal/knowledge/service.go:660-664 | a run and a cycle that loses its source in that way |
| `RefreshConservation.HistoryConserves` | backend/internal/knowledge/service.go:657-754 | over every history of cycles summarised sources and items are never lost and each source has one summary |
| `RefreshNotes.CandidatesExact` | backend/internal/knowledge/service.go:677-683 | the candidates are the first posts up to the limit and the videos with a transcript, with their texts |
| `RefreshNotes.NewExactly` | backend/internal/knowledge/refresh_material.go:5-21 | which candidates are new, in terms of the state of their key |
| `RefreshNotes.SavedExactly` | backend/internal/knowledge/service.go:665-727 | when a cycle saves a run; a blocked refresh without new material never replaces a populated one |
| `RefreshNotes.RecordsExact` | backend/internal/knowledge/service.go:1472-1532 | whether a record is taken from the cache, for this capture or any of the source, or made by the model, and what is in it then |
| `RefreshNotes.CycleKeepsNotes` | backend/internal/knowledge/service.go:740-747 | a source that is not processed keeps its action items, in order, and its insights, and gets no others |
| `RefreshNotes.CycleSetsNotes` | backend/internal/knowledge/refresh_material.go:180-217 | a source that is processed has the action items and insights of its record and no others |
| `RefreshNotes.HistoryKeepsNotes` | backend/internal/knowledge/service.go:738-754 | over every history no insight and no action item of a source is lost until the source is processed again |
| `RefreshNotes.StoreGetsSavedNotes` | backend/internal/knowledge/refresh_material.go:60-113 | the sources handed to the store have the notes that the saved run has of them |
| `RefreshNotes.VideosAreMarked` | backend/internal/knowledge/service.go:1632-1639 | a video of a saved run has the time markers of its processed source, if that has any, and is otherwise as it was merged |
| `RefreshNotes.LocalStoreOwns` | backend/internal/store/localfile/store.go:60-113 | what the local store returns has notes of its own source only, unless a source type has a colon |
| `RefreshNotes.LocalRecordExact` | backend/internal/store/localfile/store.go:60-113 | what the local store returns for a key is the record of one of the summaries of the latest run |
| `RefreshNotes.NotesFromExact` | backend/internal/store/localfile/store.go:60-113 | with all notes of its source |
| `RefreshQuiescence.StateIsLastHash` | backend/internal/knowledge/source_material.go:56-115 | the state of a key is the capture hash of its last summary |
| `RefreshQuiescence.IdentityFixesSource` | backend/internal/knowledge/source_material.go:117-119 | equal identities of a known source type come from the same type and ID |
| `RefreshQuiescence.Quiescence` | backend/internal/knowledge/refresh_material.go:5-21 | after a saved cycle, wherever states were looked up, a candidate is new again if and only if its key is unusable, or it was served from a synthesis of another capture, or it was taken for known without a fitting summary in the latest run |
| `RefreshLocalStore.EditedIsStale` | backend/internal/store/localfile/store.go:60-113 | with the local store an edited post is served its old synthesis |
| `RefreshLocalStore.StaleIsEdited` | backend/internal/store/localfile/store.go:60-113 | and nothing else is |
| `RefreshLocalStore.LocalQuiescence` | backend/internal/knowledge/service.go:1472-1532 | so with the local store exactly edited posts and unusable keys stay new |
| `RefreshLocalStore.EditedForEver` | backend/internal/knowledge/service.go:1472-1532 | over every history of cycles a synthesised post keeps that synthesis: with any other capture it is found new and served the old one each time it is fetched |
| `RefreshLocalStore.EditedPost` | backend/internal/knowledge/service.go:1472-1532 | a stored run and a cycle with such a post |
| `InsightClusters.BestInsightCluster` | backend/internal/knowledge/learning.go:538-555 | the scan of the accumulators returns the specified best one or none |
| `InsightClusters.Place` | backend/internal/knowledge/learning.go:382-402 | one insight changes one accumulator or founds one, as specified, and the index by key stays exact |
| `InsightClusters.BuildAccumulators` | backend/internal/knowledge/learning.go:376-404 | the pass over all sources leaves accumulators that hold the specified groups |
| `InsightClusters.FlatExact` | backend/internal/knowledge/learning.go:379-384 | all insights are met, source by source and in the order of each |
| `ClusterTheorems.JaccardFacts` | backend/internal/knowledge/learning.go:569-592 | the similarity is symmetric, between 0 and 1, and 1 for equal token sets only |
| `ClusterTheorems.JaccardExact` | backend/internal/knowledge/learning.go:569-592 | it is the number of shared tokens over the number of all tokens, and 0 for an empty signature |
| `ClusterTheorems.SimilarityMeans` | backend/internal/knowledge/learning.go:545-553 | it reaches the threshold exactly if four times the shared tokens are at least all tokens, and compares as the quotients do |
| `ClusterTheorems.BestExact` | backend/internal/knowledge/learning.go:538-555 | the best group is the earliest of those sharing the greatest part of the tokens, at least a quarter; there is none if and only if all share less |
| `ClusterTheorems.FoundersApart` | backend/internal/knowledge/learning.go:376-404 | founders have distinct keys, and four times the tokens two of them share are fewer than all their tokens |
| `ClusterTheorems.ClustersPartition` | backend/internal/knowledge/learning.go:376-404 | every insight with a key is in exactly the group it landed in, and groups list their insights in order of arrival with their sources |
| `ClusterTheorems.LandingExact` | backend/internal/knowledge/learning.go:376-404 | why an insight is where it is, in terms of the founders in the end: it is a dissimilar founder, or has its founder's key, or joined the earliest most similar founder |
| `ClusterTheorems.FounderKeepsItsKey` | backend/internal/knowledge/learning.go:376-404 | later insights with a founder's key join it |
| `ClusterTheorems.EqualKeysMeetExactly` | backend/internal/knowledge/learning.go:387-402 | the later of two insights with one key joins the group of the earlier one if and only if that group bears the key, or no group bears it and that group is the earliest most similar one |
| `ClusterTheorems.EqualKeysMaySplit` | backend/internal/knowledge/learning.go:387-402 | three insights, two with one key, that land in two clusters |
| `ClusterRanking.BuildInsightClusters` | backend/internal/knowledge/learning.go:376-447 | the loops over sources and accumulators, the sort and the cut give the first eight of the specified clusters as sorted |
| `ClusterRanking.ClustersExact` | backend/internal/knowledge/learning.go:405-436 | each cluster lists the IDs of the insights that landed in its group, at least two, each once, scores one for each and a half for each further source, and is captioned by the founder; no two are of one group; and every group with two IDs has one |
| `ClusterRanking.ClustersAreDisjoint` | backend/internal/knowledge/learning.go:376-436 | with distinct insight IDs no insight is in two clusters |
| `ClusterRanking.TopClusters` | backend/internal/knowledge/learning.go:437-446 | up to eight are kept and none left out scores higher than a kept one, although the sort is not stable |
| `DigestSelection.DigestQualityInsights` | backend/internal/knowledge/learning.go:730-742 | the loop drops poor insights, unless all are poor |
| `DigestSelection.SelectDigestInsights` | backend/internal/knowledge/learning.go:691-728 | sorting, picking one of each source and filling up give the specified selection |
| `DigestTheorems.QualityExact` | backend/internal/knowledge/learning.go:730-742 | selected from are the insights without a quality or with one that is not positive or at least 0.7, as often as they come, or all if there are none |
| `DigestTheorems.QualityInOrder` | backend/internal/knowledge/learning.go:730-742 | in their order |
| `DigestTheorems.SelectionExact` | backend/internal/knowledge/learning.go:691-728 | of more insights than the limit exactly the smaller of limit and number of identities are chosen, all distinct, and one from YouTube if there is any |
| `DigestTheorems.ChosenYouTubeExact` | backend/internal/knowledge/learning.go:699-715 | the chosen YouTube insight is one of lowest score, and there is one if there is any |
| `DigestTheorems.SelectedX` | backend/internal/knowledge/learning.go:691-728 | for every limit exactly when a digest has an X insight; with room for two and insights to leave out, if one has another identity than the chosen YouTube insight |
| `DigestTheorems.SelectionHasX` | backend/internal/knowledge/learning.go:691-728 | without bars in IDs that means: if there is any |
| `DigestTheorems.IdentityNamesSource` | backend/internal/knowledge/learning.go:750-752 | without bars an identity determines ID and source |
| `DigestTheorems.IdentityExact` | backend/internal/knowledge/learning.go:750-752 | and without bars in titles and addresses all five parts |
| `DigestTheorems.BarHidesX` | backend/internal/knowledge/learning.go:691-752 | a family of three insights in which a bar makes the only X insight pass for a YouTube one, and it is left out of a digest of two |
| `DigestTheorems.SelectionIgnoresOrder` | backend/internal/knowledge/learning.go:691-728 | with distinct scores the digest does not depend on the order of the insights |
| `DigestTheorems.FilledHaveLowestScores` | backend/internal/knowledge/learning.go:716-727 | after the representatives no identity left out has a lower score than one chosen |
| `TranscriptLedger.CountSince` | backend/internal/store/localfile/store.go:345-351 | the loop counts the records not from before the month |
| `TranscriptLedger.Store.ClaimYouTubeTranscriptRequest` | backend/internal/store/localfile/store.go:326-364 | the new file and the answer of a claim, with every error exit |
| `TranscriptLedger.Store.CompleteYouTubeTranscriptRequest` | backend/internal/store/localfile/store.go:366-393 | the new file and the answer of a completion, with every error exit |
| `TranscriptLedger.AnswerKeeps` | backend/internal/store/localfile/store.go:326-393 | no call removes a record or changes when it was attempted, and a completion adds none |
| `TranscriptLedger.ClaimedAtMostOnce` | backend/internal/store/localfile/store.go:326-364 | over every run, with any clock and any faults, no owner is granted a video twice |
| `TranscriptLedger.LedgerCountsGrants` | backend/internal/store/localfile/store.go:326-393 | the records of a month are exactly as many as its grants |
| `TranscriptLedger.MonthlyBudget` | backend/internal/store/localfile/store.go:343-354 | no month has more grants than the largest limit that was used, with any clock |
| `TranscriptLedger.CountedAreGrants` | backend/internal/store/localfile/store.go:345-351 | what a claim counts are the grants of its month and of all later ones |
| `TranscriptLedger.GrantedExactly` | backend/internal/store/localfile/store.go:326-364 | whatever the clock does a claim is granted exactly if its key is valid and has had no grant, and its month and all later ones had fewer grants than the limit |
| `TranscriptLedger.RefusedWithRoomExactly` | backend/internal/store/localfile/store.go:343-354 | a claim with a new key is refused although its month has room if and only if the grants of later months use that room up |
| `TranscriptLedger.BackwardClockRefuses` | backend/internal/store/localfile/store.go:343-354 | two claims, the second of which is refused in a month without any grant |
| `TranscriptLedger.LastCallDecides` | backend/internal/store/localfile/store.go:358-391 | a record is what the last successful call for its key recorded: status, detail, time of completion and time of the claim |
| `TranscriptLedger.KeyExact` | backend/internal/store/localfile/store.go:326-343 | owners without a colon share a key exactly for the same owner and video |
| `TranscriptLedger.KeysCollide` | backend/internal/store/localfile/store.go:326-343 | two owners, one with a colon, that share a key |
| `GraphOutbox.GraphStore.SyncEvent` | backend/cmd/graph-sync/main.go:112-200 | the transaction adds an event's footprint and sets its attributes as a whole or does nothing, and reports as its ending says |
| `GraphOutbox.WrittenExact` | backend/cmd/graph-sync/main.go:117-196 | an event sets attributes of the nodes of its footprint, of all of them and of nothing else |
| `GraphOutbox.WrittenValues` | backend/cmd/graph-sync/main.go:134-191 | each node gets its own attributes, and of two facts with one ID those of the later one |
| `GraphOutbox.FootprintClosed` | backend/cmd/graph-sync/main.go:117-196 | a footprint has the nodes of all its relationships |
| `GraphOutbox.FootprintExact` | backend/cmd/graph-sync/main.go:117-196 | a footprint is source and capture, related, and insights and action items, each related to the capture, and nothing else |
| `GraphOutbox.FootprintConnected` | backend/cmd/graph-sync/main.go:117-196 | each of its captures has a source, each insight and action item a capture |
| `GraphOutbox.BackoffGrows` | backend/internal/store/postgres/graph_outbox.go:67-75 | the wait never shrinks, grows strictly up to the sixth attempt, and is at most one hour |
| `GraphOutbox.Batch` | backend/internal/store/postgres/graph_outbox.go:18-44 | a batch is the beginning of the due rows in order of creation, at most the limit or fifty |
| `GraphOutbox.DueExactly` | backend/internal/store/postgres/graph_outbox.go:18-44 | the rows that are due are exactly the pending ones, in order of creation |
| `GraphOutbox.ProcessedIsNeverDue` | backend/internal/store/postgres/graph_outbox.go:46-54 | a row marked as processed is never due again, whatever synchronisers that read it before still do, and no other row is touched |
| `GraphOutbox.FailedIsDueAgain` | backend/internal/store/postgres/graph_outbox.go:56-75 | a row marked as failed is due again exactly when its wait is over, after one to sixty minutes, and no other row is touched |
| `GraphOutbox.SyncBatch` | backend/cmd/graph-sync/main.go:91-108 | the loop over a batch leaves the specified rows and graph and counts every event as processed or failed |
| `OutboxProtocol.StepKeepsValid` | backend/cmd/graph-sync/main.go:91-108 | every step of any number of synchronisers, with failures and crashes, keeps the graph equal to what was delivered |
| `OutboxProtocol.RunKeepsValid` | backend/cmd/graph-sync/main.go:91-108 | so does every run, and the graph never loses anything |
| `OutboxProtocol.GraphIsClosed` | backend/cmd/graph-sync/main.go:117-196 | no relationship in a reachable graph lacks a node |
| `OutboxProtocol.GraphIsConnected` | backend/cmd/graph-sync/main.go:117-196 | in a reachable graph each capture has a source, each insight and action item a capture |
| `OutboxProtocol.DeliveredIsInGraph` | backend/cmd/graph-sync/main.go:112-200 | whatever was delivered is in the graph as a whole, the source related to its capture |
| `OutboxProtocol.SettledGraph` | backend/cmd/graph-sync/main.go:91-108 | when all is processed the nodes and relationships are what all events together stand for |
| `OutboxProtocol.ScheduleDoesNotMatter` | backend/cmd/graph-sync/main.go:91-108 | two settled runs with the same events have the same nodes and relationships |
| `OutboxProtocol.LastCommitDecides` | backend/cmd/graph-sync/main.go:117-196 | the nodes of a reachable graph, and nothing else, have attributes: those of the last commit of an event that sets them |
| `OutboxProtocol.ShownExactly` | backend/cmd/graph-sync/main.go:91-108 | a node shows an event's own attributes if and only if that event was committed again after every other one that sets them |
| `OutboxProtocol.AttributesDependOnSchedule` | backend/cmd/graph-sync/main.go:91-108 | two settled runs with the same events whose graphs differ in attributes: an older event that was retried overwrites a newer one |
| `OutboxProtocol.MalformedStayPending` | backend/cmd/graph-sync/main.go:113-116 | an event that cannot be decoded is never processed |
| `OutboxProtocol.AttemptsAreFailures` | backend/internal/store/postgres/graph_outbox.go:56-65 | over every schedule the attempts of a row count how often it was marked as failed |
| `OutboxProtocol.BatchIsRun` | backend/cmd/graph-sync/main.go:91-108 | the program's loop over a batch is a run of the protocol |
| `OutboxProtocol.CanSettle` | backend/cmd/graph-sync/main.go:91-108 | from every reachable state a run without faults settles all events |
| `Timestamps.ParseTimestampSeconds` | backend/internal/knowledge/synthesis.go:778-795 | the loop over the parts computes the specified number of seconds, with every refusal |
| `Timestamps.ParseFormat` | backend/internal/knowledge/synthesis.go:778-822 | parsing a formatted timestamp gives back the seconds, for every non-negative machine integer |
| `TimeMarkerTheorems.SplitColonExact` | backend/internal/knowledge/synthesis.go:779 | splitting at colons gives parts without colons that join to the text |
| `TimeMarkerTheorems.ParsedExactly` | backend/internal/knowledge/synthesis.go:778-795 | a text is a time if and only if it is two or three numbers that are not negative |
| `TimeMarkerTheorems.ParsedValue` | backend/internal/knowledge/synthesis.go:778-795 | and each is worth sixty of the next |
| `Words.FieldsOfJoin` | backend/internal/knowledge/youtube_source.go:500 | splitting joined words gives back the words |
| `Words.FieldsExact` | backend/internal/knowledge/youtube_source.go:500 | white space parts words, however much there is, and nothing else does |
| `Words.CollapseIsTidy` | backend/internal/knowledge/youtube_source.go:500 | collapsed text is one line without outer space, and collapsing again changes nothing |
| `TimeMarkers.TranscriptTimedText` | backend/internal/knowledge/youtube_source.go:484-521 | the printed transcript is the lines of the usable chunks, sorted stably by time |
| `TimeMarkerTheorems.SegmentsExact` | backend/internal/knowledge/youtube_source.go:484-510 | each chunk with a text and a time gives one segment, in order, and no other does |
| `TimeMarkers.NormalizedTimeMarkers` | backend/internal/knowledge/synthesis.go:646-678 | the loop with its set of seconds gives the specified markers, for every limit |
| `TimeMarkerTheorems.NormalizedExact` | backend/internal/knowledge/synthesis.go:646-678 | the markers taken are the first usable one of each second, renewed, in order, up to the limit, and none is left out while there is room |
| `TimeMarkerTheorems.RenewedTime` | backend/internal/knowledge/synthesis.go:653-668 | a marker without a positive time takes it from its timestamp, and its new timestamp reads as its time |
| `TimeMarkerTheorems.TimestampGivesTime` | backend/internal/knowledge/synthesis.go:653-658 | so one that only has the timestamp of a time gets that time |
| `TimeMarkerTheorems.RenewedTexts` | backend/internal/knowledge/synthesis.go:650-670 | its texts are tidied and cut to 420 and 320 characters |
| `TimeMarkers.ExtractTimeMarkers` | backend/internal/knowledge/synthesis.go:683-713 | the loop over the matches gives the specified markers |
| `TimeMarkerTheorems.MatchHereExact` | backend/internal/knowledge/synthesis.go:680 | the pattern is matched where it fits in some way, and the match is one way in which it fits |
| `TimeMarkerRoundTrip.MatchLine` | backend/internal/knowledge/synthesis.go:680 | the pattern matches a printed line as a whole: its timestamp and its text |
| `TimeMarkerRoundTrip.FoundUpToHundredHours` | backend/internal/knowledge/synthesis.go:680 | a printed line is matched where it begins if and only if its time is below one hundred hours |
| `TimeMarkerRoundTrip.EveryLineIsFound` | backend/internal/knowledge/synthesis.go:680-687 | the matches of a printed transcript are its lines |
| `TimeMarkerRoundTrip.PrintedTranscriptIsRead` | backend/internal/knowledge/synthesis.go:683-713 | extracting from a printed transcript whose first segments begin before one hundred hours gives these segments, the first of each second, whatever follows them |
| `TimeMarkerRoundTrip.ShortTextsComeBack` | backend/internal/knowledge/synthesis.go:824-830 | texts within the limits come back letter for letter |
| `TimeMarkerRoundTrip.ExtractedMarkersExact` | backend/internal/knowledge/synthesis.go:646-713 | the markers are strictly ordered in time and are exactly those of each second's first segment |
| `InlineMarkdown.RenderPlainMarkdownLinks` | backend/internal/knowledge/digest_delivery.go:248-275 | the loop writes the text and links that were scanned, without markup |
| `InlineMarkdown.PlainOfLink` | backend/internal/knowledge/digest_delivery.go:248-275 | the plain form is the text before the first link, its label, a colon and its address, and the plain form of the rest |
| `InlineMarkdown.PlainWithoutLink` | backend/internal/knowledge/digest_delivery.go:248-267 | and the line itself if there is no link |
| `InlineMarkdown.RenderInlineText` | backend/internal/knowledge/digest_delivery.go:223-246 | the loop writes the escaped text with bold tags as specified |
| `InlineMarkdown.RenderInlineMarkdown` | backend/internal/knowledge/digest_delivery.go:190-221 | the loop writes the text and links that were scanned, as HTML |
| `InlineMarkdown.FindLinkExact` | backend/internal/knowledge/digest_delivery.go:194-207 | the scanner finds a link if and only if there is one, and then the first, each part as short as possible |
| `InlineMarkdown.PrintScan` | backend/internal/knowledge/digest_delivery.go:190-221 | printing what was scanned gives back every text |
| `InlineMarkdown.ScanPrint` | backend/internal/knowledge/digest_delivery.go:190-221 | scanning recovers what was printed if and only if texts have no bracket, labels no closing pair, addresses no parenthesis and the tail no link |
| `InlineHtml.InlineTextIsRead` | backend/internal/knowledge/digest_delivery.go:223-246 | a reader that demands balanced bold tags accepts all rendered text and sees each character as bold or not as the markdown says |
| `InlineHtml.HtmlIsRead` | backend/internal/knowledge/digest_delivery.go:190-246 | the HTML of every line is well-formed and shows the scanned characters and links and nothing else |
| `CanvasHistory.RecordFollows` | frontend/src/features/knowledge-inbox/ui/KnowledgeGraphView.tsx:301-306 | a record cuts the timeline at the cursor and goes on from there, keeping sixty states in reach |
| `CanvasHistory.Canvas.CommitCanvasState` | frontend/src/features/knowledge-inbox/ui/KnowledgeGraphView.tsx:308-311 | a commit is a record and a new present |
| `CanvasHistory.UndoFollows` | frontend/src/features/knowledge-inbox/ui/KnowledgeGraphView.tsx:543-555 | an undo moves the cursor of the timeline back, unless nothing before it is in reach |
| `CanvasHistory.RedoFollows` | frontend/src/features/knowledge-inbox/ui/KnowledgeGraphView.tsx:557-569 | a redo moves the cursor on, unless it is at the end, and never loses a state to the limit |
| `CanvasHistory.HistoryRefinesTimeline` | frontend/src/features/knowledge-inbox/ui/KnowledgeGraphView.tsx:301-311 | over every run the history is the view of a timeline with a cursor |
| `CanvasHistory.HistoryIsBounded` | frontend/src/features/knowledge-inbox/ui/KnowledgeGraphView.tsx:543-569 | past and future together never exceed 60, so no undo ever loses a state to redo |
| `CanvasHistory.UndoRedoInverse` | frontend/src/features/knowledge-inbox/ui/KnowledgeGraphView.tsx:543-569 | any number of undos reaches the state recorded that long ago, and as many redos restore the whole history |
| `CanvasHistory.LimitIsInvisible` | frontend/src/features/knowledge-inbox/ui/KnowledgeGraphView.tsx:543-569 | present and future are those of a history without limit unless a state out of reach was asked for |
| `CanvasHistory.LimitIsInvisibleExactly` | frontend/src/features/knowledge-inbox/ui/KnowledgeGraphView.tsx:543-569 | canvas and unlimited history are at the same place all the time if and only if that never happened |
| `CanvasHistory.LimitShows` | frontend/src/features/knowledge-inbox/ui/KnowledgeGraphView.tsx:543-569 | any number of changes above sixty that are all undone: the canvas stops sixty changes back |
| `CanvasHistory.SixtyChangesAreWithinReach` | frontend/src/features/knowledge-inbox/ui/KnowledgeGraphView.tsx:301-306 | which cannot happen within sixty changes |
| `GraphLabels.FallbackGraphLabelMeasure` | frontend/src/features/knowledge-inbox/graph/graphLayout.ts:91-114 | the wrapping loop gives the specified lines and size |
| `GraphLabels.LabelLinesExact` | frontend/src/features/knowledge-inbox/graph/graphLayout.ts:91-114 | at most four lines that read like the beginning of the text, each as long as fits; if words are missing the fourth line is one word |
| `GraphLabels.ExceedsExact` | frontend/src/features/knowledge-inbox/graph/graphLayout.ts:91-105 | words are too long for a line if they and the spaces between them, at 7.2 each, are wider |
| `GraphLabels.SizeExact` | frontend/src/features/knowledge-inbox/graph/graphLayout.ts:109-113 | a label is as wide as its widest line within its bounds and as high as its lines |
| `GraphLayout.StableHash` | frontend/src/features/knowledge-inbox/graph/graphLayout.ts:138-144 | the loop computes the specified 32-bit hash |
| `GraphLayout.HashExact` | frontend/src/features/knowledge-inbox/graph/graphLayout.ts:134-144 | the hash is the sum of the characters weighted by powers of 31, in 32 bits, and the offset its remainder by 68 less 34 |
| `GraphLayout.HashOffset` | frontend/src/features/knowledge-inbox/graph/graphLayout.ts:134-136 | the offset is at least -34 and below 34 |
| `GraphLayout.PlacesExact` | frontend/src/features/knowledge-inbox/graph/graphLayout.ts:47-61 | how far boxes are from the ones beside and above them, and where the first is |
| `GraphLayout.BoxSizesExact` | frontend/src/features/knowledge-inbox/graph/graphLayout.ts:53-55 | how large a box is for its label |
| `GraphLayout.RowHasNoOverlap` | frontend/src/features/knowledge-inbox/graph/graphLayout.ts:47-70 | boxes of one row never overlap |
| `GraphLayout.RowsAreApart` | frontend/src/features/knowledge-inbox/graph/graphLayout.ts:47-70 | centres of different rows are at least 101 apart |
| `GraphLayout.SafeExactly` | frontend/src/features/knowledge-inbox/graph/graphLayout.ts:47-70 | no layout with boxes up to a height has an overlap if and only if that height is at most 101 |
| `GraphLayout.HighBoxesOverlap` | frontend/src/features/knowledge-inbox/graph/graphLayout.ts:47-70 | three nodes whose boxes overlap as soon as two heights exceed 202 together |
| `GraphLayout.BoxesInside` | frontend/src/features/knowledge-inbox/graph/graphLayout.ts:47-82 | every box up to 212 high lies inside of the reported size, for every number of nodes |
| `GraphLayout.WrappedLayout` | frontend/src/features/knowledge-inbox/graph/graphLayout.ts:47-114 | with wrapped labels all boxes are inside, and without four-line labels none overlap |
| `GraphLayout.WrappedLabelsCanOverlap` | frontend/src/features/knowledge-inbox/graph/graphLayout.ts:47-114 | four words of eleven letters make two boxes overlap |
| `Sorting.StableSortUnique` | backend/internal/knowledge/learning.go:699-701 | ordered lists that agree on all ties are equal, so a stable sort has one result |
| `Sorting.OrderIndependent` | backend/internal/knowledge/learning.go:699-701 | without ties the result does not depend on the input order |
| `Text.TrimExact` | backend/internal/knowledge/insight_graph.go:289 | trimming takes away the white space at both ends, all of it and nothing else |
| `Text.IndexExact` | backend/internal/knowledge/digest_delivery.go:194-204 | the reported position is the first occurrence, and there is none only if nothing occurs |

## Left out

- External services, HTTP, SQL, JSON, logging, tracing, configuration, prompts and React rendering: their results are arbitrary inputs, and stored values come back as they were written.
- Model answers, capture hashes, pick scores and rankings: functions given to the model; ranking keeps the insights but may order them in any way.
- Floating point: weights, qualities, similarities and sizes are reals. The similarities compared have at most 24 tokens on each side, so equal and unequal quotients stay so in 64 bits.
- Text.Lower: folds the letters A to Z only, because the cases of other scripts play no part in the proofs; white space is complete.
- Cluster keys and signatures, node labels and node selection for the graph: fields of the inputs; how texts become keys and tokens is not modelled.
- ClusterRanking.BuildInsightClusters: a cluster's summary, canonical text and representative IDs are left out; its caption is a function of the insight that founded it.
- Cache and material keys are records, not joined strings; the joined identities that the cycle compares are strings as in the code.
- RefreshCycle.RunCycle: artifacts, themes, clusters, graph, digest and status fields of a run are left out (the digest is not carried into a new result by the code either).
- AppStates: a result is its time, its digest and the rest, which is not looked into; a part of the SHA-256 hash and the written time are functions whose values differ where that is required; the manifest inside of an app state, which readers replace, and its tag are left out.
- ReadModelCache: expiry may happen to any blob at any time; refresh-status writes, the hash of source materials beyond its success, and the limits applied to a read value are left out.
- ReadModelPublisher.Cache.PublishAppState: a state without a latest result skips the source materials, which is the case of their success; the snapshot store and the edge cache are left out.
- WorkerPool: cancellation and panics are left out.
- TranscriptLedger: an instant is its month and what has passed of it; one process at a time holds the file, as the mutex of a store does.
- GraphOutbox.GraphStore.SyncEvent: the attributes that one statement sets for a node are one value, and the time of the update is left out.
- TimeMarkers.Capture: the pattern is written out as the longest match that backtracking finds, not as a general regular expression.
- TimeMarkers.TranscriptTimedText: how a chunk's start is read from its fields is left out; its seconds are an input.
- CanvasHistory: canvas states are values, so cloning is the identity; an edit without a record sets the present; selections are left out, and updates are taken in the order in which they are asked for.
- GraphLabels.FallbackGraphLabelMeasure: takes the words of a label; a character counts as one unit of length, also where the browser counts two.
- The cached graph cut to a limit is not compared with a graph built for that limit: only their nodes agree, because degree caps were spent on edges to dropped nodes.
