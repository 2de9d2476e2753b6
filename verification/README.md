# Verified models of cargoless

Dafny models of the parts of cargoless in which many things happen at once, or in
which bytes stand for identity, and proofs of what those parts promise.  Six areas
are covered:

* **App lifecycle** (`AppModel`, `AppInvariant`, `AppHistory`, `AppRuns`,
  `AppTheorems`, `AppNewest`, `AppBoundary`, `AppStreaks`, `AppState`): the
  blue/green state machine of many instances that share build slots.  `AppModel`
  says what one event does, as functions on values; `AppState` is the class that
  edits maps, queue and set in place and is proved against them.  A run is any sequence of observed
  events, additions and removals; its log interleaves what was observed with the
  actions answered, and the theorems speak about positions in that log.
* **Driver and ports** (`PortRange`, `AppFleet`, `AppFleetRuns`,
  `AppFleetTheorems`, `AppFleetLedger`, `AppFleetPorts`, `AppDriver`): children,
  ports and proxy slots beneath the state machine.  What the launcher answers to a
  spawn is a parameter; what it is asked for is kept as a log.
* **Candidate snapshots** (`Bytes`, `Paths`, `Records`, `Hex`, `Base64`,
  `GitObject`, `Candidate`, `CandidateFields`, `CandidateDigest`, `GitTree`,
  `GitMerkle`, `GitTrie`, `CandidateManifest`, `CandidateOverlay`,
  `CandidateRefusals`): validation verdicts with the code of the first failing
  check, what each code means, digest preimages, Git tree ids and overlays.
* **Cluster sequencer** (`Barrier`, `ClusterDriver`, `ClusterTraces`,
  `ClusterRequests`, `ClusterLifecycle`, `Attribution`): whose diagnostics decide
  whose verdict, which requests are lost, which shared analyzers should live, and
  which errors are new.
* **Store and publisher** (`Store`, `Artifact`, `Publisher`, `PointerFile`): the
  shared content store and the pointer file as interleaved steps over directory
  entries and inodes with crashes, the artifact blob, and the build publisher.
* **Supervisor** (`Supervisor`): monitor thread, owner and handles as interleaved
  steps.

`dafny verify dfyconfig.toml` checks everything.

## Conventions

Strings that the program treats as bytes are byte sequences (`Bytes.Text` where a
length must fit in 64 bits).  Shifts and ors on bytes are written as arithmetic on
disjoint bits.  SHA-1 and SHA-256 are function parameters.  No function from all
byte strings to fixed-length digests is injective, so a result that needs collision
freedom assumes it only for the finite set of byte strings that the inputs at hand
cause to be hashed.  Unicode normalization form C and UTF-8 validity are abstract
predicates.

## Where the code does less than its documentation

* A newest HEAD can be lost: a HEAD that returns to the building sha leaves an
  older pending sha in place, and a retry then builds that one (`AppBoundary`);
  `AppNewest.HeadIsMetIff` says exactly when.
* An owed respawn can be stranded when a retry is refused as the recorded red
  (`AppBoundary`).
* A serving child that exits by itself keeps its port until its instance is removed
  (`AppFleetTheorems.ExitedChildKeepsItsPortIff`).
* Port ranges that end at 65535 hand out ports twice (`PortRange`).
* A failed flycheck settles a barrier that still owes stale ends and keeps what was
  published before them; `Barrier.HoldsStaleIff` says exactly when.
* After a respawn a worktree can be both in flight and queued (`ClusterRequests`).
* The documentation of unpacking says that a corrupt artifact is never half
  expanded; the code writes files as it parses, so that holds exactly for a bad
  header or a refused first record (`Artifact.NothingWrittenIff`).
* A pointer's temporary name carries only the process id, so a publisher that begins
  while another of its process may still rename can publish torn contents, and only
  such a one can (`PointerFile.OneAtATimeIff`).
* Suspension does not imply that no child lives: it does exactly when the kill does
  not land between the monitor's park loop and the storing of the next child
  (`Supervisor.SuspendSilencesIff`).
* A bare activation that moves the last member of a cluster emits no teardown, and
  only such a one lets the actions and the clusters differ
  (`ClusterLifecycle.RunsReplayIff`).

## Model

| member | source | states |
|---|---|---|
| AppInvariant.RunKeepsInvariant | crates/cargoless-core/src/appstate.rs:245-360 | In every run of events, additions and removals: the queue is duplicate-free and holds exactly the queued instances, the building set is exactly the building ones and within the slot limit, a pending sha exists only behind a build or probe, and all in-flight, serving and draining generations are distinct daemon-wide and below the next one; and no slot idles while an instance waits, unless a removal took a builder away from under a waiting instance |
| AppInvariant.RunFillsSlots | crates/cargoless-core/src/appstate.rs:273-287 | In every run at most the requested number of builds are in progress, one if zero was requested, and exactly that many while an instance waits, unless a removal took a builder away from under a waiting instance |
| AppInvariant.QueueHeadIsQueued | crates/cargoless-core/src/appstate.rs:746-766 | The `unreachable!` and `expect` of dispatch cannot fire in a state that satisfies the invariant |
| AppInvariant.DispatchKeeps | crates/cargoless-core/src/appstate.rs:746-766 | Handing out slots keeps the invariant and stops only when no slot is free or nobody waits |
| AppInvariant.RemovedKeeps | crates/cargoless-core/src/appstate.rs:317-324 | Removal keeps the invariant; slots stay busy exactly when it did not remove a builder while another instance waited |
| AppBoundary.RemovalIdlesSlot | crates/cargoless-core/src/appstate.rs:317-324 | A concrete run: the only builder is removed while another instance waits, and the slot stays free |
| AppInvariant.StepKeeps | crates/cargoless-core/src/appstate.rs:333-360 | One event keeps the daemon-wide invariant and keeps busy slots busy |
| AppRuns.RunIsSound | crates/cargoless-core/src/appstate.rs:333-766 | Every action in the log of every run is justified by what was heard and ordered before it, and every instance is supported by that history |
| AppTheorems.NeverServeRed | crates/cargoless-core/src/appstate.rs:389-418 | Every promotion in every run directly answers a successful probe of its generation, and that generation was started, had green as its first result and was spawned, all for exactly that sha in this lifetime of the instance, or was respawned from a sha promoted before or named by the recovery pointer |
| AppTheorems.ServingChangesOnly | crates/cargoless-core/src/appstate.rs:512-664 | What an instance serves changes only by promotion of the probed generation, or is cleared by that child's own exit; no event of another instance touches it |
| AppTheorems.RedIsNeverRetried | crates/cargoless-core/src/appstate.rs:719-726 | Between a recorded red and the next build of the same sha in one lifetime a HEAD of that sha arrived |
| AppTheorems.ResultDecidesOrTires | crates/cargoless-core/src/appstate.rs:404-508 | An accepted build result spawns a probe, records red, or strictly decreases the remaining patience |
| AppTheorems.VerdictsConverge | crates/cargoless-core/src/appstate.rs:404-508 | In every run, however HEAD moves: among more than five accepted build results of an instance, in log positions, there is a spawned probe or a recorded red after the first; among more than two failed recovery boots there is a Promote or a recorded red |
| AppTheorems.AcceptedIff | crates/cargoless-core/src/appstate.rs:389-403 | A build result or a failed probe is accepted by the state machine exactly when, in log positions, it is the first answer to the build, or recovery boot, started last |
| AppStreaks.ResultIsRedIff | crates/cargoless-core/src/appstate.rs:389-510 | In every run, in log positions: an accepted green result spawns its probe and is never recorded red; a failed one is recorded red always, or, when it is about the disk, exactly after two other accepted disk-full results with no green, no code red and no such red since; an inconclusive one exactly when the result accepted before it in this lifetime was inconclusive too and went unrecorded; and a result that is neither requests its retry |
| AppStreaks.FailedProbeIsRedIff | crates/cargoless-core/src/appstate.rs:550-607 | In every run, in log positions: an accepted probe failure kills its child and is recorded red always for a new build, and for a recovery boot exactly after two others failed with no promotion and no such red since; otherwise the same sha is booted again at once |
| AppStreaks.RunMatches | crates/cargoless-core/src/appstate.rs:389-607 | The three retry counters of an instance are what the log adds up to: an inconclusive result left open, the open disk-full results, the open failed recovery boots |
| AppTheorems.ExitRespawnsIff | crates/cargoless-core/src/appstate.rs:609-658 | An app that exits is booted again in the same step, ahead of a build that waits for a slot, exactly when its pipeline is idle or queued, and a waiting build then is pending behind the boot; when a build or probe is in flight the boot is owed |
| AppTheorems.BooksFollowActions | crates/cargoless-core/src/appstate.rs:512-664 | A recorded red is kept with the files of the build it blames until the next red, and the draining generations are those told to drain when they were replaced until each reports done; no event of another instance touches either |
| AppNewest.HeadIsMetIff | crates/cargoless-core/src/appstate.rs:368-741 | After a HEAD in any reachable state, whatever follows short of a newer one, its sha is in the pipeline or pending until the instance has come to serve it or to record it as red; this holds exactly unless the HEAD returns to the sha that is building, past another that is pending, while a retry is still possible |
| AppNewest.FreshHeadNeverLost | crates/cargoless-core/src/appstate.rs:368-741 | When HEAD shas never repeat nor name a recovered sha, the newest one is in the pipeline, pending, or settled by a Promote or RecordRed emitted after it arrived |
| AppBoundary.LosesNewestIff | crates/cargoless-core/src/appstate.rs:447-457 | A located, undecided sha is lost by an event other than a HEAD exactly when that event is a retry result for it while another sha is pending |
| AppBoundary.HeadCanBeLost | crates/cargoless-core/src/appstate.rs:381-385 | A concrete run in which the newest HEAD returns to the busy sha, a retry follows, and it is lost |
| AppBoundary.StrandsIff | crates/cargoless-core/src/appstate.rs:447-457 | A step strands an owed respawn exactly when a retry result comes while one is owed and the retry target is the recorded red sha |
| AppBoundary.OwedNeverStranded | crates/cargoless-core/src/appstate.rs:550-726 | In every run without such a step an instance owed a respawn has no serving child, a recorded green, and a busy pipeline |
| AppBoundary.StrandedUntil | crates/cargoless-core/src/appstate.rs:368-372 | A stranded instance stays stranded until a HEAD other than the red sha or a recovery arrives |
| AppBoundary.RespawnCanBeStranded | crates/cargoless-core/src/appstate.rs:498-506 | A concrete run that strands an owed respawn |
| AppState.AppState.WithMaxConcurrent | crates/cargoless-core/src/appstate.rs:273-287 | A new daemon satisfies the invariant and has the state of the model |
| AppState.AppState.AddInstance | crates/cargoless-core/src/appstate.rs:309-311 | Adds an idle instance, or does nothing for a known name, keeping the invariant |
| AppState.AppState.RemoveInstance | crates/cargoless-core/src/appstate.rs:317-324 | Removes an instance from map, queue and building set, keeping the invariant |
| AppState.AppState.Step | crates/cargoless-core/src/appstate.rs:333-360 | The in-place handlers produce exactly the state and the action list of the specified step, and keep the invariant |
| AppState.AppState.RequestBuild | crates/cargoless-core/src/appstate.rs:719-741 | Dedupes against serving sha, recorded red and pipeline; joins the queue exactly when it turns an idle pipeline into a queued one |
| AppState.AppState.TryRespawn | crates/cargoless-core/src/appstate.rs:689-714 | Starts a recovery boot with a fresh generation exactly when one is due |
| AppState.AppState.SettleIdle | crates/cargoless-core/src/appstate.rs:673-687 | Restores serving first, then requeues the pending sha |
| AppState.AppState.Dispatch | crates/cargoless-core/src/appstate.rs:746-766 | The slot loop equals the specified dispatch and keeps the invariant |
| AppState.AppState.OnBuildFinished | crates/cargoless-core/src/appstate.rs:389-510 | All outcome arms, in place, equal the specified verdict and dispatch |
| AppState.AppState.OnProbeSucceeded | crates/cargoless-core/src/appstate.rs:512-548 | Promotion, drain of the old child, settling and dispatch equal the specification |
| AppState.AppState.OnProbeFailed | crates/cargoless-core/src/appstate.rs:550-607 | Kill, retry budget, red and settling equal the specification |
| AppState.AppState.OnServingExited | crates/cargoless-core/src/appstate.rs:609-658 | Exit handling, including the queued build becoming pending, equals the specification |
| PortRange.AllocSoundIff | crates/cargoless-core/src/appdrv.rs:133-145 | An answer is a port of the range nobody holds and no answer means all are held, exactly until the cursor stands on 65535 with nothing to recycle |
| PortRange.ReserveSoundIff | crates/cargoless-core/src/appdrv.rs:160-177 | Reserving pins the port and leaves the others, keeping free, un-issued and issued ports a partition, exactly when the port is not 65535 |
| PortRange.ReleaseReturns | crates/cargoless-core/src/appdrv.rs:147-152 | A released port leaves the issued set and the partition still holds |
| PortRange.ReleaseTwice | crates/cargoless-core/src/appdrv.rs:147-152 | A double release does not duplicate the port |
| PortRange.CursorWraps | crates/cargoless-core/src/appdrv.rs:138-140 | After port 65535 is handed out the cursor restarts at 0 |
| PortRange.ReservedTopPortIsReissued | crates/cargoless-core/src/appdrv.rs:175 | A reserved port 65535 is handed out again |
| PortRange.PortAllocator.Alloc | crates/cargoless-core/src/appdrv.rs:133-145 | Pops a recycled port or bumps the cursor, as specified |
| PortRange.PortAllocator.Release | crates/cargoless-core/src/appdrv.rs:147-152 | Recycles a port once |
| PortRange.PortAllocator.Reserve | crates/cargoless-core/src/appdrv.rs:160-177 | The swap-remove and the skipping loop equal the specified reservation |
| AppDriver.SlotReadsBackIff | crates/cargoless-core/src/l4proxy.rs:83-105 | A packed proxy slot reads back as what was set exactly for a non-zero port and a generation of at most 48 bits |
| AppDriver.Driver.constructor | crates/cargoless-core/src/appdrv.rs:243-279 | A new driver has the specified state and no effects |
| AppDriver.Driver.Drive | crates/cargoless-core/src/appdrv.rs:283-291 | Stepping the state machine and executing every action in order gives exactly the specified fleet |
| AppDriver.Driver.SpawnAndProbe | crates/cargoless-core/src/appdrv.rs:334-377 | Port, child table, probe start and posted failure equal the specification for every answer of the launcher |
| AppDriver.Driver.Promote | crates/cargoless-core/src/appdrv.rs:380-394 | Points the slot at the tracked child's port and generation, or changes nothing |
| AppDriver.Driver.StopChild | crates/cargoless-core/src/appdrv.rs:497-516 | A drain keeps the child and its port, a kill untracks it and releases the port |
| AppDriver.Driver.AddInstance | crates/cargoless-core/src/appdrv.rs:521-533 | Adds to the state machine and overwrites the runtime |
| AppDriver.Driver.RemoveInstance | crates/cargoless-core/src/appdrv.rs:539-570 | Stops every child, releases its port, forgets runtime and instance |
| AppDriver.Driver.OnDrainReclaimed | crates/cargoless-core/src/appdrv.rs:580-588 | Untracks a drained child and releases its port |
| AppFleet.RefusedIffRangeHeld | crates/cargoless-core/src/appdrv.rs:345-355 | A boot is refused for want of a port exactly when every port of the range is held by a tracked child |
| AppFleetRuns.DrivenKeepsFleet | crates/cargoless-core/src/appdrv.rs:283-332 | One driven event keeps port and slot ownership over all instances |
| AppFleetTheorems.OwnershipHolds | crates/cargoless-core/src/appdrv.rs:283-588 | In every run the duplicate-free free list, the un-issued ports and the issued ports split the configured range, each issued port is held by exactly one tracked child, every set proxy slot names a child tracked on that port, and an instance that serves has its slot set to the very generation it serves (probes report only where started, only drained children are reclaimed, added names are new, the range ends below 65535) |
| AppFleetTheorems.JoinConservesIff | crates/cargoless-core/src/appdrv.rs:521-533 | Adding a name conserves ports exactly when no runtime with children is overwritten; the state machine ignores a known name while the driver forgets its children |
| AppFleetLedger.LedgerHolds | crates/cargoless-core/src/appdrv.rs:334-588 | In every run every tracked child is one the launcher started, with exactly that port, sha and token; every child it started is still tracked as it was started or was stopped with the token its start returned; what was killed is no longer tracked, nothing else was ever stopped, and every start has its probe on that port |
| AppFleetLedger.UntrackedMeansKilled | crates/cargoless-core/src/appdrv.rs:497-588 | In every turn but the reclaim of a drained child, a tracked child stays tracked as it is, or it is untracked and the launcher has been told to kill it with its own token |
| AppFleetPorts.PortsGoInTurn | crates/cargoless-core/src/appdrv.rs:334-588 | In every run, in positions of what the launcher was told: of two children on one port the first was told to stop, with its own token, after it was spawned and before the second was; no generation is spawned twice and nothing is stopped that was not spawned before |
| AppFleetLedger.NothingWaitsUnasked | crates/cargoless-core/src/appdrv.rs:293-377 | In every run a building instance has its build started for exactly that sha and generation, a probing one has its child of that sha or the failure of its boot posted back, and a draining child was told to drain |
| PortRange.ReleasedIsNext | crates/cargoless-core/src/appdrv.rs:133-152 | A port given back is the next one handed out, which undoes the release |
| AppFleetTheorems.RejoinLosesPort | crates/cargoless-core/src/appdrv.rs:521-533 | A concrete run: a configured name with a tracked child is joined again, and the port is neither free, un-issued nor held |
| AppFleetTheorems.ExitedChildKeepsItsPortIff | crates/cargoless-core/src/appdrv.rs:293-332 | In every later run a serving child that exited by itself keeps its port issued exactly until its instance is removed: nothing short of that gives the port back, and after that the child is never tracked again, even if the name is configured anew |
| AppFleetTheorems.ExitedChildBlocksRespawn | crates/cargoless-core/src/appdrv.rs:334-377 | A concrete run on a one-port range: HEAD, green build, successful probe, death of the served child; the dead child holds the port and the respawn is refused for want of one |
| Base64.DecodesIffCanonical | crates/cargoless-core/src/candidate_snapshot.rs:833-895 | The decoder accepts exactly the canonical encodings of section 4 of RFC 4648 and inverts them |
| Base64.OneTextPerPayload | crates/cargoless-core/src/candidate_snapshot.rs:316-324 | Two texts with the same payload are the same text |
| Base64.DecodeBase64 | crates/cargoless-core/src/candidate_snapshot.rs:833-884 | The loop over quanta, with its padding and trailing-bit checks, computes the specified decoding |
| Hex.DecodesIffEncoded | crates/cargoless-core/src/candidate_snapshot.rs:787-821 | Hexadecimal decoding accepts exactly what lower-case encoding writes |
| Hex.HexLower | crates/cargoless-core/src/candidate_snapshot.rs:823-831 | The encoding loop writes two digits a byte and decodes back |
| Candidate.EntriesAcceptedIff | crates/cargoless-core/src/candidate_snapshot.rs:376-445 | Entries pass exactly when counted, within the limit, well formed, and strictly ascending by path bytes |
| Candidate.OperationsAcceptedIff | crates/cargoless-core/src/candidate_snapshot.rs:447-578 | Operations pass exactly when a counted, non-empty, strictly ordered list of regular-mode changes whose canonical payloads match size, SHA-256 and blob id, within the size limits |
| CandidateFields.PathAcceptedIff | crates/cargoless-core/src/candidate_snapshot.rs:580-602 | A path is accepted exactly when it is a text within the limit, in normalization form C, without control bytes, backslash or DEL, that resolved component by component from the root never stays and never goes up, so that it leads to exactly its own components, none of which is .git in any letter case |
| CandidateFields.AcceptedEntriesStayInside | crates/cargoless-core/src/candidate_snapshot.rs:376-424 | Every accepted entry lies at its own components below the root, none of them .git in any letter case |
| CandidateFields.AcceptedOperationsStayInside | crates/cargoless-core/src/candidate_snapshot.rs:447-578 | Every accepted operation touches only a path at its own components below the root, none of them .git in any letter case |
| CandidateFields.OidAcceptedIff | crates/cargoless-core/src/candidate_snapshot.rs:653-668 | An object id is accepted exactly when it is the lower-case hexadecimal text of twenty or thirty-two bytes, as the format says |
| CandidateFields.DigestAcceptedIff | crates/cargoless-core/src/candidate_snapshot.rs:684-692 | A digest is accepted exactly when it is sha256: and the lower-case hexadecimal text of thirty-two bytes |
| CandidateFields.UpsertNamesItsBlob | crates/cargoless-core/src/candidate_snapshot.rs:447-578 | The text of an accepted upsert is the base64 of bytes of the stated size, at most 32 MiB, whose SHA-256 and whose hash as a Git blob are the ones it states |
| CandidateRefusals.EntriesRefusedIff | crates/cargoless-core/src/candidate_snapshot.rs:376-445 | Entries are refused for being too many, then for being miscounted, and otherwise with a code exactly when that code names the first fault, in the order of the checks, of the first entry that has one |
| CandidateRefusals.OperationsRefusedIff | crates/cargoless-core/src/candidate_snapshot.rs:447-578 | Operations are refused for being too many, miscounted or none, and otherwise with a code exactly when that code names the first fault of the first operation that has one, where a payload counts towards the total together with those before it |
| Candidate.ValidateEntries | crates/cargoless-core/src/candidate_snapshot.rs:376-424 | The loop reports the first failing check in the program's order |
| Candidate.ValidateOperations | crates/cargoless-core/src/candidate_snapshot.rs:447-578 | The loop, with its running payload total, reports the first failing check in the program's order |
| CandidateDigest.ManifestPreimageInjective | crates/cargoless-core/src/candidate_snapshot.rs:267-313 | Manifests with equal digest preimages agree on format, kind, comparison base, commit or base, tree id, snapshot digest, entries and operations, up to payload text |
| CandidateDigest.SnapshotPreimageInjective | crates/cargoless-core/src/candidate_snapshot.rs:249-264 | Snapshots with equal digest preimages agree on format, tree id and entries, whatever their kinds |
| CandidateDigest.DomainsApart | crates/cargoless-core/src/candidate_snapshot.rs:249-313 | Each preimage begins with its own tag, and no manifest's preimage is a snapshot's |
| CandidateDigest.FieldsBytesInjective | crates/cargoless-core/src/candidate_snapshot.rs:728-785 | The length-prefixed records can be read back, so equal bytes carry equal fields |
| CandidateDigest.ComputeManifestDigest | crates/cargoless-core/src/candidate_snapshot.rs:267-313 | The growing buffer equals the specified preimage, and a field that is not hexadecimal fails |
| CandidateDigest.ComputeSnapshotDigest | crates/cargoless-core/src/candidate_snapshot.rs:249-264 | The growing buffer equals the specified preimage, and a field that is not hexadecimal fails |
| CandidateDigest.Preimage.PushEntry | crates/cargoless-core/src/candidate_snapshot.rs:744-750 | Appends exactly one entry record, or reports a field that is not hexadecimal |
| CandidateDigest.Preimage.PushOperation | crates/cargoless-core/src/candidate_snapshot.rs:757-785 | Appends exactly one operation record, payload excluded |
| GitTrie.TreeNode.Insert | crates/cargoless-core/src/candidate_snapshot.rs:919-957 | Inserting into the nodes in place gives exactly the specified trie, or the specified error with exactly the directories made on the way left behind, over disjoint subtrees |
| GitTree.OpenedAt | crates/cargoless-core/src/candidate_snapshot.rs:919-957 | The directories a refused insertion leaves behind add, change and remove no file |
| GitTrie.TreeNode.ObjectId | crates/cargoless-core/src/candidate_snapshot.rs:959-987 | Hashing subtrees first and the sorted items after them gives the specified object id |
| GitTree.InsertedIff | crates/cargoless-core/src/candidate_snapshot.rs:919-957 | Insertion is refused for its path exactly when an existing leaf's path equals it or one is a component-wise prefix of the other |
| GitTree.BuiltIff | crates/cargoless-core/src/candidate_snapshot.rs:240-246 | A list of entries builds a trie exactly when no two paths conflict, and the trie then holds exactly its leaves |
| GitTree.OrderDoesNotMatter | crates/cargoless-core/src/candidate_snapshot.rs:908-957 | The trie, and so the root id, does not depend on entry order |
| GitMerkle.SortedInGitOrder | crates/cargoless-core/src/candidate_snapshot.rs:978-1005 | Tree items leave strictly ascending by name, a directory's name taken with a trailing slash |
| GitMerkle.DirectoriesSortWithSlash | crates/cargoless-core/src/candidate_snapshot.rs:999-1005 | The name a-b sorts before the directory a and after the file a |
| GitMerkle.OneFileObject | crates/cargoless-core/src/candidate_snapshot.rs:959-1024 | The tree object of a directory with one file: tree, the length in decimal, and mode, name and raw id of the file |
| GitMerkle.OneDirectoryObject | crates/cargoless-core/src/candidate_snapshot.rs:959-1024 | A directory inside is an item of mode 40000 that carries the id of its own object |
| GitObject.DecimalIs | crates/cargoless-core/src/candidate_snapshot.rs:1012-1024 | The length in an object header is the decimal numeral, without leading zeros |
| GitMerkle.RootDeterminesTree | crates/cargoless-core/src/candidate_snapshot.rs:959-987 | Well-formed trees with equal ids are equal, unless two of the objects hashed for them collide |
| GitObject.ObjectInjective | crates/cargoless-core/src/candidate_snapshot.rs:1012-1024 | A hashed object determines its body |
| CandidateManifest.TreeIdPinsFiles | crates/cargoless-core/src/candidate_snapshot.rs:79-120 | Accepted manifests of one format with equal tree ids list the same paths, modes and blobs, unless tree objects collide |
| CandidateManifest.DigestIdentifiesManifest | crates/cargoless-core/src/candidate_snapshot.rs:79-120 | Accepted manifests with the same manifest digest are equal, payload texts included, unless SHA-256 collides on their preimages or payloads |
| CandidateManifest.AcceptedIff | crates/cargoless-core/src/candidate_snapshot.rs:79-120 | A manifest is accepted exactly when schema and shape are right and all three identifiers are the computed ones |
| CandidateManifest.ValidateManifest | crates/cargoless-core/src/candidate_snapshot.rs:79-120 | The checks run in the program's order and report the first failure |
| CandidateRefusals.ManifestRefusedIff | crates/cargoless-core/src/candidate_snapshot.rs:79-130 | A manifest is refused for its schema exactly when it has another one, and for its tree id, snapshot digest or manifest digest exactly when it is in form, the identifiers checked before are the computed ones and this one is not |
| CandidateManifest.ComputeCandidateTreeOid | crates/cargoless-core/src/candidate_snapshot.rs:240-246 | Inserting entry by entry and hashing the root gives the specified id or the first error |
| CandidateOverlay.MapAcceptedIff | crates/cargoless-core/src/candidate_snapshot.rs:604-628 | A resolved entry map passes exactly when every key is the canonical path of its own well-formed entry, within the limit |
| CandidateOverlay.OverlayListsTheDifference | crates/cargoless-core/src/candidate_snapshot.rs:132-237 | The operations of an overlay that validates are exactly at the paths where base and candidate differ |
| CandidateOverlay.OverlayIsCanonical | crates/cargoless-core/src/candidate_snapshot.rs:132-237 | Two overlays that take the same base to the same candidate carry the same operations, payload texts included, unless SHA-256 collides on payloads |
| CandidateOverlay.DeltaExistsIff | crates/cargoless-core/src/candidate_snapshot.rs:158-223 | Some strictly ordered operations take base to candidate exactly when every difference has a regular or absent base side and changes mode or blob |
| CandidateRefusals.ApplyingFailsIff | crates/cargoless-core/src/candidate_snapshot.rs:158-223 | Operations in path order apply exactly when none of them misfits the base as it was before any of them, and fail with a code exactly when it says how the first misfit misfits |
| CandidateRefusals.AgainstMapsAcceptedIff | crates/cargoless-core/src/candidate_snapshot.rs:132-237 | The whole check passes exactly when the manifest is accepted, the candidate map is in order and is the advertised one, and for an overlay a base in order is given that the operations turn into the candidate |
| CandidateRefusals.OverlayRefusedIff | crates/cargoless-core/src/candidate_snapshot.rs:150-236 | With manifest and maps in order an overlay is refused for want of a base exactly when there is none, with the code of the first operation that misfits the base, and as a mismatch exactly when all fit and lead elsewhere |
| CandidateOverlay.ApplyOperations | crates/cargoless-core/src/candidate_snapshot.rs:155-223 | The loop over the resolved map equals the specified application or its first error |
| CandidateOverlay.ValidateAgainstMaps | crates/cargoless-core/src/candidate_snapshot.rs:132-237 | The whole check against entry maps reports the first failure in the program's order |
| Barrier.FlycheckBarrier.Observe | crates/cargoless-core/src/barrier.rs:170-211 | One observed event changes the barrier as specified and answers whether it has settled |
| Barrier.FlycheckBarrier.ArmSkipping | crates/cargoless-core/src/barrier.rs:149-155 | An armed barrier owes the given stale ends and holds nothing |
| Barrier.SettledIff | crates/cargoless-core/src/barrier.rs:170-211 | The barrier is settled exactly when some event was a failure or the end after all stale ones |
| Barrier.SettlesExactly | crates/cargoless-core/src/barrier.rs:170-211 | It settles at the first such event, and holds from then on the last publish per URI since the last stale end, plus the failure if that settled it |
| Barrier.WaitsUntilSettled | crates/cargoless-core/src/barrier.rs:170-211 | Before that it waits, owing the remaining stale ends, with exactly the last publishes of the open window |
| Barrier.VerdictBits | crates/cargoless-core/src/barrier.rs:235-251 | After a failure both error bits are set; after an end each is set exactly when a last publish of the window carries such an error |
| Barrier.FailureSkipsStaleEnds | crates/cargoless-core/src/barrier.rs:200-205 | A failure settles while stale ends are owed and keeps what was published before |
| Barrier.HoldsStaleIff | crates/cargoless-core/src/barrier.rs:200-205 | The settled window holds a publish of a flycheck that should have been skipped exactly when stale ends were still owed and something was published since the last end |
| Barrier.OwedAtSettle | crates/cargoless-core/src/barrier.rs:170-211 | At the settle exactly the stale ends not yet heard stay owed, and only a failure settles with any owed |
| ClusterDriver.Sequencer.OnRoutedBatch | crates/cargoless-core/src/clusterdrv.rs:228-254 | Opens a turn when idle, else marks a recheck or queues once |
| ClusterDriver.Sequencer.OnLsp | crates/cargoless-core/src/clusterdrv.rs:256-320 | Observes under the open turn; a settle emits the verdict and opens the next turn, as specified |
| ClusterDriver.Sequencer.OnDeactivated | crates/cargoless-core/src/clusterdrv.rs:322-334 | Prunes the queue and cancels a recheck of the worktree in flight |
| ClusterDriver.Sequencer.StartNextAfterSettle | crates/cargoless-core/src/clusterdrv.rs:345-361 | Recheck first, else the head of the queue, under a fresh barrier |
| ClusterDriver.Sequencer.ResetAfterRespawn | crates/cargoless-core/src/clusterdrv.rs:428-432 | Drops exactly the work in flight and keeps the queue |
| ClusterTraces.VerdictAttribution | crates/cargoless-core/src/clusterdrv.rs:228-320 | Every verdict closes the turn opened last for its worktree with no verdict or respawn in between, and is decided by the analyzer events since that opening alone: settling at the last of them, error bit from last publishes or a failure, activity bit exactly when the analyzer published or failed, reason from a failed pull |
| ClusterTraces.FollowupAfterVerdict | crates/cargoless-core/src/clusterdrv.rs:345-374 | The switch taken right after a verdict goes back to the same worktree exactly when that worktree was routed again during its turn and not deactivated since, else to the head of the queue, else there is none; and that turn is open from then on |
| ClusterTraces.SilentAfterRespawn | crates/cargoless-core/src/clusterdrv.rs:428-432 | After a respawn no verdict leaves until a worktree is routed again |
| ClusterRequests.RequestConserved | crates/cargoless-core/src/clusterdrv.rs:228-361 | In respawn-free runs a routed worktree that is not deactivated is queued, in flight with its recheck owed, or has had a turn opened since |
| ClusterRequests.RunKeepsOrderly | crates/cargoless-core/src/clusterdrv.rs:228-361 | In respawn-free runs the queue is duplicate-free and excludes the worktree in flight, and an idle cluster owes nothing |
| ClusterRequests.ServedInTurn | crates/cargoless-core/src/clusterdrv.rs:345-361 | The entry at position p of the queue has had its turn by the time p+1 turns were handed to the queue |
| ClusterRequests.RoutedKeepsApartIff | crates/cargoless-core/src/clusterdrv.rs:228-254 | A batch keeps the queue apart from the turn in flight except when it opens a turn for a worktree still queued from before a respawn |
| ClusterRequests.InFlightAndQueued | crates/cargoless-core/src/clusterdrv.rs:428-432 | A run after which one worktree is both in flight and queued |
| ClusterRequests.RespawnDropsOnlyInFlight | crates/cargoless-core/src/clusterdrv.rs:428-432 | A respawn drops the turn in flight and its recheck, keeps the queue, and so leaves an orderly cluster exactly when the queue was empty |
| ClusterRequests.DeactivatedOwesNothing | crates/cargoless-core/src/clusterdrv.rs:322-334 | A deactivated worktree leaves the queue and has no recheck, and the others keep their order |
| ClusterRequests.NoTurnOnceDeactivated | crates/cargoless-core/src/clusterdrv.rs:322-361 | After a deactivation no turn opens for the worktree until it is routed again |
| ClusterDriver.PullFailureIff | crates/cargoless-core/src/clusterdrv.rs:281-285 | A verdict names a failed diagnostic pull exactly when the failure carries the prefix, with exactly the text that follows it |
| Store.StoreIsSafe | crates/cargoless-cas/src/lib.rs:120-158 | In every interleaving of writers, readers, crashes and sweeps: a final file is the complete payload of a put of its key, a temporary file holds a prefix of one and has at most one live writer, a put that answered Ok left its key present, and what a reader has read is a prefix of a complete payload |
| Store.ContentAddressed | crates/cargoless-cas/src/lib.rs:120-158 | With one payload a key, every final file is exactly that payload, every read a prefix of it, and a read that reached the end of its file the whole |
| Store.FinalsStay | crates/cargoless-cas/src/lib.rs:120-150 | A key once present stays present |
| Store.LostTempIsNeverTorn | crates/cargoless-cas/src/lib.rs:138-150 | A put whose temporary file was swept before its rename, whatever other steps come in between: its file never gets a name, and if the put returns it answers whether the key was present when it looked again; an Ok leaves the complete payload of some put of that key |
| Store.OpenFindsIff | crates/cargoless-cas/src/lib.rs:153-158 | A read finds a key exactly when its final file is present as it opens it |
| Store.GetsWhatWasPut | crates/cargoless-cas/src/lib.rs:120-158 | Once a put of a key has answered Ok, with one payload a key, a reader that opens the key finds it and reading to the end gives exactly that payload, whatever happens before, in between and since |
| Store.UnhinderedPutSucceeds | crates/cargoless-cas/src/lib.rs:120-150 | A put without an error of its own, whose process lives and whose temporary file is not swept, has at every moment answered Ok with its key present or can take its next step and advance by it, whatever the others do |
| Store.ErrorIsAnswered | crates/cargoless-cas/src/lib.rs:126-150 | A put that runs into an error removes its temporary file and answers with the error, unless it was the rename that failed, then with whether the key is there |
| Store.SweepTmpOrphans | crates/cargoless-cas/src/clean.rs:164-196 | Removes exactly the listed old regular temporary files, those whose age or removal fails excepted, counts them, and leaves every final file; a missing directory counts none and an unreadable one is an error |
| Artifact.PackDir | crates/cargoless-core/src/build.rs:210-246 | The buffer equals header and records in path order |
| Artifact.UnpackArtifact | crates/cargoless-core/src/build.rs:266-325 | The cursor loop leaves exactly the specified tree and failure, writing as it parses |
| Artifact.UnpackInvertsPack | crates/cargoless-core/src/build.rs:210-325 | Unpacking a packed tree lays exactly its files over the output directory and keeps everything else |
| Paths.SplitOfJoin | crates/cargoless-core/src/build.rs:220-231 | Joining plain components with slashes and splitting the result gives them back |
| Artifact.PackInjective | crates/cargoless-core/src/build.rs:210-246 | Equal blobs come from equal trees |
| Artifact.StopsAt | crates/cargoless-core/src/build.rs:266-325 | Every blob body is the records that are written, in order, and a rest that is empty or begins with the record the reader stops at; the directory ends up with exactly those records laid over it, and the failure is that record's |
| Artifact.NothingWrittenIff | crates/cargoless-core/src/build.rs:251-325 | A blob that fails has written nothing exactly when its header is bad or its first record is truncated, not UTF-8, unsafe or unwritable; and it leaves the directory as it was exactly when the records written before the stop repeat what is there |
| Artifact.UnpacksIff | crates/cargoless-core/src/build.rs:251-325 | A blob is unpacked without an error exactly when it is the header and the bytes of records that can be written one after the other, each at a UTF-8 path that leads to its own components below the output directory and is not obstructed; and even from a refused blob only such records are written |
| Artifact.FailureKeepsWhatItWrote | crates/cargoless-core/src/build.rs:266-325 | A packed tree with one to seven stray bytes fails as truncated with all its files written |
| Artifact.HalfExpanded | crates/cargoless-core/src/build.rs:251-325 | One file and one stray byte: the blob is refused and the file is there |
| Publisher.BuildOrchestrator.Run | crates/cargoless-core/src/build.rs:429-464 | Lookup, compile, store, verify and publish, with every failure branch, give exactly the specified state and outcome |
| Publisher.RanMeans | crates/cargoless-core/src/build.rs:429-480 | The compiler runs at most once and only for a key not stored; the pointer moves exactly when the outcome is not a failure, to this run's stored key |
| Publisher.RunFailsIff | crates/cargoless-core/src/build.rs:429-480 | A run on a stored key fails exactly when lookup or publication fails; on any other exactly when lookup, compiler, put, verification or publication fails or the artifact is evicted; otherwise the outcome is Deduplicated exactly when the key was stored, else Compiled, and latest-green is the key |
| Publisher.RunStores | crates/cargoless-core/src/build.rs:429-464 | A run leaves every stored artifact as it was, and a missing one it leaves stored exactly when the compiler succeeded and somebody's put did without an eviction, with the artifact of whoever put it first |
| Publisher.FailureNamesItsStep | crates/cargoless-core/src/build.rs:429-480 | A failure gives the compiler's own error, or names the first step that failed with its error |
| Publisher.MaterializeAnswers | crates/cargoless-core/src/build.rs:347-362 | Materializing answers that nothing is green exactly without a pointer, evicted exactly when latest-green names a key that is not stored, and the key exactly when its blob unpacks |
| Publisher.NeverRecompiled | crates/cargoless-core/src/build.rs:429-464 | Once a key is stored no later request compiles it and its bytes never change |
| Publisher.PublisherEndToEnd | crates/cargoless-core/src/build.rs:347-480 | After any requests on a store that evicts nothing latest-green is a stored key, and materializing it lays exactly the packed tree over the output directory |
| Publisher.CompiledIsServed | crates/cargoless-core/src/build.rs:347-480 | Right after a run that compiled, what is materialized is what that run's compiler produced |
| Publisher.MaterializeLatestGreen | crates/cargoless-core/src/build.rs:347-362 | A failed read of pointer or store, no pointer and an evicted artifact leave the output directory alone; otherwise the blob is unpacked into it, a corrupt one leaving the records it wrote |
| PointerFile.PointerIsNeverTorn | crates/cargoless-core/src/build.rs:529-552 | With one publisher a process, in every interleaving and wherever it crashes, the pointer is absent or holds complete published contents |
| PointerFile.OneAtATimeIff | crates/cargoless-core/src/build.rs:529-552 | Wherever one publisher a process has led so far, beginning another publish can never tear the pointer, whatever follows short of one more beginning, if no publish of its process may still rename; and unless every prefix of its contents has been published, exactly then |
| PointerFile.SharedPidTearsPointer | crates/cargoless-core/src/build.rs:538 | A concrete family of runs: two publishers in one process rename an unpublished prefix of the second's contents into place |
| PointerFile.UnhinderedPublishSucceeds | crates/cargoless-core/src/build.rs:529-552 | A publish without an error of its own, alone in its living process, has at every moment answered Ok or can take its next step and advance by it, and its rename makes the pointer hold exactly its contents |
| PointerFile.FailedRenameCleansUp | crates/cargoless-core/src/build.rs:545-552 | A publish whose rename fails leaves the pointer as it was and takes its temporary file away |
| Supervisor.SupervisorIsSafe | crates/cargoless-core/src/analyzer.rs:809-914 | In every interleaving at most one child is not yet waited for, restarts are stored children less one, backoff stays between 50 ms and 2 s, and once shutdown has returned every child is dead and waited for |
| Supervisor.ParkedMeansEvicted | crates/cargoless-core/src/analyzer.rs:862-880 | A parked monitor means no child runs or lingers |
| Supervisor.ParkedStaysWhileSuspended | crates/cargoless-core/src/analyzer.rs:862-880 | While suspended a parked monitor stays parked and every child stays waited for, through any steps short of a resume or a shutdown |
| Supervisor.DeathLeadsToRestart | crates/cargoless-core/src/analyzer.rs:815-905 | From a seen death, through any steps of all threads short of a suspend or a shutdown: until a new child is stored the monitor can always move, every move brings the store one nearer and only a failed spawn sends it round again, so after enough moves a new child is stored and counted as a restart |
| Supervisor.PolledDeathRestarts | crates/cargoless-core/src/analyzer.rs:815-833 | A polled death begins such a restart, six moves from the store |
| Supervisor.RestartNowKills | crates/cargoless-core/src/analyzer.rs:384-392 | A restart request kills the child it finds and changes nothing else |
| Supervisor.BackoffDoubles | crates/cargoless-core/src/analyzer.rs:882-905 | In every run the backoff is 50 ms doubled once for every respawn that failed since a child was last stored, up to 2 s |
| Supervisor.ResumeRestarts | crates/cargoless-core/src/analyzer.rs:459-462 | A resume lets a parked monitor go on to the next child, four moves from its store |
| Supervisor.OverCapIsKilled | crates/cargoless-core/src/analyzer.rs:761-806 | A child measured over the memory cap is dead once the monitor has moved on, whatever the other threads do in between |
| Supervisor.ShutdownEnds | crates/cargoless-core/src/analyzer.rs:398-412 | From wherever a shutdown finds the monitor, whatever the handles do and whether spawns succeed: the monitor moves at most five times more; until it has exited it can always move, unless it waits for a child still to die; then the shutdown can return, and when it has, every child is waited for |
| Supervisor.FailedStartStays | crates/cargoless-core/src/analyzer.rs:300-343 | A first spawn that fails leaves no child, and nothing follows it |
| Supervisor.SuspendSilencesIff | crates/cargoless-core/src/analyzer.rs:443-453 | In every reachable state with the suspend flag set: after the kill no child ever runs again short of a resume or a shutdown, exactly when the monitor was not between its park loop and the storing of the next child |
| Supervisor.SuspendCanMissTheChild | crates/cargoless-core/src/analyzer.rs:447-453 | A run in which a suspend between the park loop and the store leaves a child running |
| ClusterLifecycle.Lifecycle.Detach | crates/cargoless-core/src/clustermgr.rs:255-264 | Removes a worktree from its cluster and prunes an emptied cluster |
| ClusterLifecycle.Lifecycle.Activate | crates/cargoless-core/src/clustermgr.rs:164-190 | Joins a cluster, detaching first, and spawns exactly for the first member |
| ClusterLifecycle.Lifecycle.Deactivate | crates/cargoless-core/src/clustermgr.rs:199-208 | Leaves, and tears down exactly for the last member |
| ClusterLifecycle.Lifecycle.Reroute | crates/cargoless-core/src/clustermgr.rs:219-231 | Leaves and joins, surfacing both actions |
| ClusterLifecycle.RunsReplayIff | crates/cargoless-core/src/clustermgr.rs:164-264 | In every run the two maps are mutual inverses with no empty cluster; the emitted actions replayed give exactly the clusters with members all the way through a run exactly when no bare activation in it moves the last member out of another cluster, and then each action starts what is not running or stops what is |
| ClusterLifecycle.ActivatedReplaysIff | crates/cargoless-core/src/clustermgr.rs:164-190 | A bare activation accounts for the live set exactly when it does not move the last member out of another cluster |
| ClusterLifecycle.RerouteActions | crates/cargoless-core/src/clustermgr.rs:219-231 | A reroute tears the old cluster down exactly when the worktree was alone in it and spawns the new one exactly when nobody was there, in that order, and moves this worktree only |
| ClusterLifecycle.TeardownCanBeMissed | crates/cargoless-core/src/clustermgr.rs:164-190 | A concrete run: a worktree alone in one cluster is activated in another, and the first analyzer is never torn down |
| ClusterLifecycle.Alternates | crates/cargoless-core/src/clustermgr.rs:164-231 | Between two spawns of a cluster there is a teardown, and between two teardowns a spawn |
| Attribution.FingerprintCounts | crates/cargoless-core/src/attribution.rs:44-50 | The counted map is exactly the multiset of error fingerprints |
| Attribution.NewDiagnostics | crates/cargoless-core/src/attribution.rs:73-91 | The credit loop computes the specified new errors |
| Attribution.NewIsTheDifference | crates/cargoless-core/src/attribution.rs:73-91 | The fingerprints of the new errors are the overlay's less the base's, count by count |
| Attribution.NewKeepsOrder | crates/cargoless-core/src/attribution.rs:73-91 | The new errors are a subsequence of the overlay's errors |
| Attribution.NewAreTheLast | crates/cargoless-core/src/attribution.rs:73-91 | Of several errors with one fingerprint the new ones are the last, as many as the overlay has more than the base |
| Attribution.NothingNewIffInherited | crates/cargoless-core/src/attribution.rs:57-63 | For an overlay with errors none is new exactly when all are inherited; for one without, none is new yet nothing is called inherited |

## Left out

- GitTrie.TreeNode.Insert: descends by recursion where the source loops.
- AppDriver.Driver.Drive: writing the state file and publishing the snapshot after the batch are not modelled.
- AppDriver.Driver.Promote: bundle pruning after a promotion is not modelled.
- AppDriver.Driver.RemoveInstance: deletion of the lane's directories is not modelled.
- AppDriver.Driver.SpawnAndProbe: the launcher is taken to start the child on the requested port; environment and bundle directory are not modelled.
- AppFleetTheorems.OwnershipHolds: reservation is no turn of these runs, because the program reserves only in the separate allocator of preview ports; it is covered on its own in `PortRange`.
- Artifact.PackDir: the directory walk is given as the map of regular files it yields; directories without files, symbolic links and lossy file names are not modelled.
- Artifact.UnpackArtifact: file system failures other than a path running through a file or naming a directory are not modelled.
- Store.StoreIsSafe: the wiping `clean_cache` is not a step, keys are taken not to look like temporary names, and file system errors can happen at any step but leave earlier data intact.
- Supervisor.SupervisorIsSafe: hooks are taken to return, and the monitor thread to be created; a poll whose status is unknown counts as a death whose wait returns once the child has died.
- Publisher.BuildOrchestrator.Run: a request is named by the hash of its inputs, and pointer publication is one step that happens or fails; its own steps are in `PointerFile`.
- Attribution.NewDiagnostics: the fingerprint is a function parameter; path relativization and message normalization are not modelled.
- ClusterDriver.Sequencer.OnLsp: a publish is its URI and error counts; diagnostic details are not modelled.
- Process spawning, process groups, `/proc`, signals, stderr capture and stack dumps: foreign calls; children are running, dead or waited for.
- SHA-1 and SHA-256 bodies, Unicode normalization, JSON parsing and the 128 MiB manifest limit: parameters or parsing.
- 64-bit wrap of generations, restart counts and sequence numbers: not reachable in practice, numbers are unbounded.
- `config.rs`, `appmanifest.rs`, `appinstances.rs`, `cargodiag.rs`, `procmacro.rs`: parsing and precedence tables.
- `appsvc.rs` and `appstatefile.rs`: reporting mirrors of the state machine.
- `appbuild.rs`: file system work and log scraping.
- `identity.rs`, `tree.rs`, `cache_layout.rs`, `cluster.rs`, `activity.rs`, `activitymgr.rs`, `batch.rs`: would add only easier members.
- Reading workspace configuration files in `clustermgr.rs`: file reading; a cluster is named by its hash.
