# Verified model of the sandbox runtime's stateful core

A Dafny model of the parts of the PI sandbox runtime that carry state, concurrency or a
codec, with proofs about every run, every interleaving and every input. `dafny verify
dfyconfig.toml` checks the whole project.

| area | files | what is modelled |
|---|---|---|
| exec streaming | `ExecStream`, `Utf8`, `LineSplit`, `ExecClients` | two goroutines sharing one output budget as a transition relation, the same protocol on mutable buffers, buffered execution, and the three clients that reassemble lines from byte chunks |
| shell text | `ShellLexer`, `ShellGrammar`, `ShellPrinters`, `ShellCommands` | the printers `shellQuote`, `shellJoin`, `shellCommand` against token recognition, quote removal and assignments of IEEE Std 1003.1-2017, Shell Command Language, sections 2.2, 2.3, 2.6.7, 2.4 and 2.10 |
| snapshots | `Trees`, `TreeWrites`, `TreeWalks`, `Snapshots`, `SnapshotEffects`, `SnapshotRaces`, `SnapshotAlone` | recursive copy, whole, write by write and path by path, reflink with partial failure, blobs addressed by hash, pointers, mark and sweep, and creates and prunes interleaved |
| agent runs | `AgentRuns`, `AgentOutcomes` | the locked run store and the handlers that race over it, and the outcome of each run read off the requests made |
| templates | `Templates`, `TemplateStore`, `TemplateEffects`, `TemplateCrashes`, `TemplateRaces`, `TemplateRefs`, `TemplateRules`, `Bundles` | numbered revision files with a separate index, crash points between writes and writers that overlap, digests and lineage, what each operation does field by field, validation, OCI bundles |
| contexts | `Contexts`, `ContextStore` | the context file and handlers that load, change and save it whole |
| paths and start-up | `WorkspacePath`, `Reconcile`, `StartupFates` | lexical path resolution, and the pass that brings sandboxes and containers into agreement |
| shared | `Wrappers`, `Seqs`, `GoStrings` | result types, regroupings of sequences, the parts of Go's string and path packages that are called |

Code that works step by step is a method or a class over mutable state, tied by its
`ensures` to a function of the old state; the lemmas are about those functions. SHA-256,
YAML, JSON and tar are function parameters. What is assumed of them is one predicate per
codec (`Faithful`, `Sound`, `HexDigest`): what is written decodes back, and digests look
like digests. SHA-256 is never assumed to be injective: where a theorem needs it, the
conclusion is "or here are two byte strings that collide".

## What turned out false, and the exact condition

* `shellJoin` does not run every argument list: a first argument printed bare that reads as
  `NAME=value`, as a reserved word or, beginning with `-` or `+`, as options of `sh` does not
  survive. Its comment promises otherwise (`ShellJoinRunsArgs`, `ShellJoinLosesOptions`).
* `shellCommand` parses back exactly when variable names are valid and something follows a
  `cd` (`ShellCommandRecovers`).
* The buffered `truncated` flag looks at stdout only (`BufferedFlagTruthful`).
* The Python client decodes each chunk on its own: it fails exactly when a chunk ends inside
  a character or, which the server never sends, a line is JSON and not an object
  (`PyExecStream`).
* `dirHash` ignores names, so a rollback can bring a file back under another name without
  any collision (`RenamedFileComesBackUnderOldName`, exact condition in `SnapshotRoundTrip`).
* Nothing keeps snapshots apart that are made or pruned at once. Over any number of
  interleaved creates, deletes and prunes, everything resolves at every moment exactly when no
  step does one of three things (`RacesSafeIff`): a create looks and takes a directory for its
  blob that another is still copying; a create that looked too early copies into a blob that
  then no longer has its hash, or finishes such a copy; a sweep reaches an unmarked hash that
  is named, or about to be. Two trees of one hash can merge (`TreesMerge`), and a half copy
  can be taken for the blob (`HalfCopyTaken`). A sweep alone loses a snapshot exactly when its
  hash was not among those marked, however long before that was (`SweepAroundCreate`,
  `MarkAroundCreate`). Creates of different hashes do no harm (`ApartIsSafe`), nor do creates
  of one tree where renames work (`SameTreeMayOverlap`).
* The run store refuses a second run only while the first is STARTING or RUNNING: two starts
  that fall while a run is PENDING both go through (`StartKeepsExclusive`,
  `OneActiveRunIff`).
* A cancel is answered CANCELLED whether or not it changed anything, so a client can be told
  so of a run that completed (`CancelledThoughCompleted`). The answer is true exactly when a
  cancel of that run ended it (`CancelAnswerTrueIff`).
* The comment on `ContentDigest` says a fork has its source's digest; the name is part of the
  definition, so only a fork of the same name has (`ForkDigest`).
* An index that no longer parses restarts the numbering and can overwrite old revisions
  (`UnreadableIndexRestarts`).
* A rollback cut off between its writes breaks the lineage chain at the next one that
  finishes (`ChainHoldsIff`).
* Template writers that overlap lose revisions: none is lost exactly when no writer reads the
  history while another is between its read and its index (`RevisionsSurviveIff`). The index
  can also be left naming one definition and the file holding another (`TwoFirstRevisions`).
* `lineDiff` compares sets of lines (`DiffSeesLineSets`).
* A bundle's provenance is not tied to its definition (`PackThenRead`), and one manifest
  digest can stand for two provenances, because the config blob may be left out: exactly when
  one bundle carries it, the other does not, and it says something (`OneDigestOneTemplate`,
  `ProvenanceCanBeStripped`).
* Overlapping context handlers keep the file well formed but can lose an update that was
  reported as done (`SecondWriterWins`, `CreatedContextLost`). For handlers that each create a
  context of their own, no reported context is missing exactly when no save falls between
  another handler's load and its save (`CreatesSurviveIff`).
* Resolving a resolved workspace path again changes it exactly when it ends in a blank
  (`ResolveAgainIff`).
* The start-up pass looks at no container when no compat sandbox is WARM, marks only one of
  two sandboxes that share a missing container, and removes the containers of WARM sandboxes
  of other modes, because they are named alike (`StartupAgreesIff`,
  `OtherModesLoseContainers`).

## Model

| member | source | states |
|---|---|---|
| ExecStream.PipeReader.Read | pkg/exec/engine.go:203-205 | a read overwrites only the front of the reused buffer with the next bytes of the pipe |
| ExecStream.StreamRun.ReadChunk | pkg/exec/engine.go:204-206 | one goroutine reads; the other, the budget and the wire stay as they were |
| ExecStream.StreamRun.ClaimChunk | pkg/exec/engine.go:208-221 | the critical section is one Claim step of the protocol |
| ExecStream.StreamRun.WriteChunk | pkg/exec/engine.go:189-217 | the event written outside the lock holds the claimed front of the goroutine's own buffer |
| ExecStream.StreamRun.Advance | pkg/exec/engine.go:202-227 | between interleaving points a goroutine makes exactly the protocol's next step |
| ExecStream.StreamRun.CopyPipes | pkg/exec/engine.go:229-233 | any schedule of the two goroutines is the same interleaving of protocol steps |
| ExecStream.StreamRun.Close | pkg/exec/engine.go:233-255 | the final event is written exactly when both goroutines are gone, with the exit code that follows from how the command ended |
| ExecStream.CopyAndReport | pkg/exec/engine.go:196-255 | a started command under any schedule ends in the state of that interleaving of protocol steps, and has read both pipes whole if it finished and its reads failed only at their ends |
| ExecStream.RunStream | pkg/exec/engine.go:140-256 | nothing is written without a command that starts; otherwise, for every schedule: each stream is a prefix of what was read of its pipe, min(read, limit) bytes are emitted in all, one done event comes last, says whether more than that was read and carries the command's status, or 0 or 1 as the timeout decides; and everything was read if reads fail only at the end of their pipe |
| ExecStream.NextOf | pkg/exec/engine.go:202-227 | a goroutine has an enabled step of its own until it is finished |
| ExecStream.Play | pkg/exec/engine.go:229-233 | every interleaving keeps the budget invariant and writes no done event |
| ExecStream.ReadKeepsInv | pkg/exec/engine.go:205-206 | reading into the reused buffer disturbs nothing already claimed |
| ExecStream.ClaimKeepsInv | pkg/exec/engine.go:208-221 | claiming or dropping a chunk keeps the budget invariant, prefix property and flag |
| ExecStream.WriteKeepsInv | pkg/exec/engine.go:216-217 | writing after the unlock keeps the invariant whatever the other goroutine did since |
| ExecStream.NextKeepsInv | pkg/exec/engine.go:196-256 | every step keeps the invariant |
| ExecStream.RunKeepsInv | pkg/exec/engine.go:196-256 | the invariant holds at every point of every interleaving |
| ExecStream.BudgetConserved | pkg/exec/engine.go:196-233 | always: emitted plus claimed bytes are min(bytes seen, budget), truncated says whether more was seen, each stream is a prefix of its pipe |
| ExecStream.FinishedRunComplete | pkg/exec/engine.go:202-254 | at the end exactly min(read, budget) bytes were emitted and the one done event is last and truthful |
| ExecStream.StopsAtLastRead | pkg/exec/engine.go:202-227 | a goroutine is gone only after a read of its own returned an error, and reads no more after that |
| ExecStream.HonestRunDrains | pkg/exec/engine.go:202-227 | when reads return errors only at the end of their pipe, a finished run has read both pipes whole |
| ExecStream.HonestRunEmitsAll | pkg/exec/engine.go:196-254 | so the smaller of the whole output and the limit is emitted, and the flag says whether that was all |
| ExecStream.PlayDrains | pkg/exec/engine.go:202-233 | the same for every schedule of the two goroutines |
| ExecStream.CanDrain | pkg/exec/engine.go:202-233 | from any point the goroutines can be brought to their end by such reads |
| ExecStream.NeverStuck | pkg/exec/engine.go:202-255 | no interleaving deadlocks before the done event |
| ExecStream.StreamAgreesWhenFits | pkg/exec/engine.go:99-132 | when all output fits, buffered and streamed execution give the same bytes and no truncation |
| ExecStream.StreamIsBufferedWithoutMarker | pkg/exec/engine.go:266-272 | with stdout only, buffered output is the streamed bytes plus the marker exactly when the stream says truncated |
| ExecStream.BufferedTruncationStreams | pkg/exec/engine.go:105-113 | buffered truncation implies streamed truncation |
| ExecStream.BufferedFlagTruthful | pkg/exec/engine.go:107-113 | the buffered flag tells the truth if and only if stderr fits or stdout does not |
| ExecStream.BufferedKeepsPrefixes | pkg/exec/engine.go:266-272 | each buffered stream is whole when it fits and otherwise its first bytes and the marker; a negative limit always panics |
| ExecClients.DecodeChunk | apps/gui/src/api.ts:384-390 | an incremental UTF-8 decoder loses and invents nothing wherever the bytes are cut |
| ExecClients.ClientStep | sdk/typescript/src/client.ts:166-172 | after any chunk the lines yielded are those completed so far and the buffer is the line begun last |
| ExecClients.ReadLines | sdk/typescript/src/client.ts:157-171 | for every chunking the loop finds exactly the newline-terminated non-blank lines and keeps the rest |
| ExecClients.GuiExecStream | apps/gui/src/api.ts:383-402 | for every chunking the GUI yields the events of the non-blank lines, the last one included, up to the first that does not parse, and throws exactly when there is one |
| ExecClients.TsExecStream | sdk/typescript/src/client.ts:157-190 | for every chunking the TypeScript SDK yields one event for each newline-terminated non-blank line, raw output where it is not JSON |
| ExecClients.KeepNonBlank | sdk/typescript/src/client.ts:170-171 | blank lines are skipped and the others kept in order |
| LineSplit.NonBlankAround | sdk/typescript/src/client.ts:170-171 | a line is kept exactly when it is not blank, in its place among the others |
| ExecClients.PyReadLines | sdk/python/src/pi_sandbox/__init__.py:197-205 | decoding fails if and only if some chunk ends inside a character, and then after the lines of the chunks before |
| ExecClients.PyExecStream | sdk/python/src/pi_sandbox/__init__.py:194-219 | it fails if and only if a chunk ends inside a character or a line is JSON and not an object; it yields one event for each newline-terminated line up to there, raw output where it is not JSON, and on failure one made of the error |
| ExecClients.PyYield | sdk/python/src/pi_sandbox/__init__.py:206-215 | the lines before the first that is JSON and not an object become events, and that one raises |
| ExecClients.PyStep | sdk/python/src/pi_sandbox/__init__.py:198-205 | decoding one chunk on its own succeeds exactly when it ends between characters |
| ExecClients.DrainLines | sdk/python/src/pi_sandbox/__init__.py:202-205 | splitting one line at a time yields the complete lines and leaves the rest |
| ExecClients.AsciiCutsAreBoundaries | sdk/python/src/pi_sandbox/__init__.py:198-201 | on ASCII text the Python client cannot fail |
| ExecClients.PythonFailsInsideCharacter | sdk/python/src/pi_sandbox/__init__.py:198-201 | any output whose first 4096-byte read ends inside a character, after 4095 ASCII ones, makes it fail |
| LineSplit.SplitUnlines | pkg/exec/engine.go:189-192 | splitting newline-terminated events gives the events and an empty rest |
| LineSplit.SplitKeepsText | sdk/typescript/src/client.ts:167-169 | the complete lines with their newlines, and the rest, are the text again |
| ExecClients.ClientsRecoverEvents | pkg/exec/engine.go:189-194 | of the lines the server writes, what the contracts of the GUI and the TypeScript SDK say they yield is the emitted events, and so is what the Python SDK yields when no chunk ends inside a character |
| LineSplit.FeedText | apps/gui/src/api.ts:390-397 | feeding text piecewise completes the same lines as having it at once |
| Utf8.DecodeEncode | apps/gui/src/api.ts:384-390 | decoding an encoded text and an unfinished character gives the text and that character's bytes |
| ShellPrinters.ShellJoinLoop | cmd/pi-box/box/box.go:249-259 | the slice filled by index joins to the printed form of the arguments |
| ShellPrinters.HasSpecial | cmd/pi-box/box/box.go:252 | finds whether an argument has any of the special characters |
| ShellPrinters.EscapeReplaces | pkg/runtime/gvisor/runtime.go:223-225 | text without quotes is printed as it is and each single quote as four characters |
| ShellPrinters.JoinSplits | cmd/pi-box/box/box.go:258 | pieces without spaces are what lies between the single spaces of the join |
| ShellPrinters.QuotedPieceIsLiteral | pkg/api/workspace_ops.go:56-58 | wherever the lexer is outside quotations, comments and expansions a quoted string ends the operator being read, if any, and adds exactly itself, all literal, to the current word |
| ShellPrinters.JoinLexes | pkg/runtime/gvisor/runtime.go:215-219 | quoted arguments joined by spaces lex to one word each, in order |
| ShellPrinters.ShellJoinRoundTrip | cmd/pi-box/box/box.go:249-259 | lexing and quote removal give back exactly the arguments, empty and quote-filled ones included |
| ShellCommands.ShellJoinRunsArgs | cmd/pi-box/box/box.go:246-259 | `sh -c` runs the arguments as one command if and only if the first is not printed bare as a keyword, as NAME=value or as options |
| ShellCommands.ShellJoinParses | cmd/pi-box/box/box.go:249-259 | the printed text is the arguments as one command if and only if the first is not printed bare as a keyword or as NAME=value |
| ShellCommands.ShellJoinLosesOptions | pkg/exec/engine.go:258-264 | `-x foo` is an input that is not run as a command at all |
| ShellCommands.ShellJoinEmpty | cmd/pi-box/box/box.go:249-259 | no arguments print to no command |
| ShellCommands.ShellJoinLosesAssignment | cmd/pi-box/box/box.go:249-259 | `A=b cmd` is an input for which the words do not come back |
| ShellCommands.ShellCommand | pkg/runtime/gvisor/runtime.go:207-221 | the shell reads the returned string back as the directory, the environment map and the command words if and only if all names are valid and a directory is followed by something |
| ShellCommands.ShellCommandRecovers | pkg/runtime/gvisor/runtime.go:207-225 | the same for every iteration order of the environment |
| ShellCommands.EnvPrefix | pkg/runtime/gvisor/runtime.go:212-214 | each variable of the map is printed once, whatever the order |
| ShellCommands.JoinQuoted | pkg/runtime/gvisor/runtime.go:215-219 | every command word is printed quoted |
| ShellCommands.CommandLexes | pkg/runtime/gvisor/runtime.go:207-221 | the tokens are cd, the directory and &&, then one word per variable and per command word |
| ShellCommands.ShellCommandRoundTrip | pkg/runtime/gvisor/runtime.go:207-225 | parsing recovers directory, assignments in order and words, no word read as an assignment, if and only if all names are valid and cd is followed by something |
| ShellCommands.EnvironmentRecovered | pkg/runtime/gvisor/runtime.go:212-214 | for every iteration order the parsed assignments are the environment as a map |
| ShellCommands.OnlyValidNamesParse | pkg/runtime/gvisor/runtime.go:212-214 | if the request comes back its variable names were valid |
| ShellCommands.DanglingAnd | pkg/runtime/gvisor/runtime.go:209-211 | a directory with nothing to run does not parse |
| ShellCommands.NeverOptions | pkg/runtime/gvisor/runtime.go:207-225 | with valid variable names the string is never taken for options of the shell |
| Trees.CopyDir | pkg/snapshot/create.go:127-175 | the loop computes the overlay of source on destination, or fails where a file meets a directory, and adds up the file sizes |
| Trees.CopyReproduces | pkg/snapshot/create.go:127-175 | copying into an absent or empty directory reproduces the tree |
| Trees.SizeIsWalkLength | pkg/snapshot/storage.go:109-127 | the size reported is the number of bytes hashed |
| TreeWalks.WalkIsPathOrder | pkg/snapshot/storage.go:109-127 | the bytes hashed are the contents of exactly the tree's files, one after the other in increasing order of their paths |
| TreeWalks.OverlayAt | pkg/snapshot/create.go:127-175 | a copy leaves at every path the source's file or directory, and where the source has nothing, what was there |
| TreeWalks.OverlayIff | pkg/snapshot/create.go:127-175 | and it succeeds if and only if nowhere a file meets a directory |
| TreeWrites.WritesAreOverlay | pkg/snapshot/create.go:127-175 | the single directory and file writes of a copy, with nothing between them, make the overlay of the source on the destination, or fail where it does |
| TreeWrites.RewriteIsIdle | pkg/snapshot/create.go:127-175 | any one of a tree's writes leaves a complete copy of it as it is |
| Trees.CloneWalk | pkg/snapshot/create.go:82-99 | succeeds if and only if every file can be cloned, and then clones the tree; otherwise it leaves whole clones of what came before the first entry that cannot be |
| TreeWalks.ClonableIff | pkg/snapshot/create.go:82-99 | a tree can be cloned if and only if the file at each of its paths can |
| Trees.TryReflink | pkg/snapshot/create.go:69-105 | a failed attempt leaves the staging directory empty or gone |
| Trees.StageWorkspace | pkg/snapshot/create.go:28-33 | whatever the reflink did before failing, staged tree and size are those of a plain copy |
| Snapshots.SnapshotStore.Create | pkg/snapshot/create.go:21-57 | stores the tree under the hash of its files' bytes if nothing is there, by rename or by copy, and writes the pointer with the size and the way it was copied |
| Snapshots.SnapshotStore.Delete | pkg/snapshot/delete.go:10-18 | removes the pointer, and reports one that is not there |
| Snapshots.SnapshotStore.Rollback | pkg/snapshot/rollback.go:11-37 | the workspace becomes exactly the stored tree, or for a pointer without a hash the directory beside it, and is untouched, with the reason told, when there is no pointer or no content |
| Snapshots.SnapshotStore.PruneOrphans | pkg/snapshot/prune.go:12-52 | removes exactly the unreferenced content directories and returns how many there were |
| Snapshots.SnapshotStore.SweepAll | pkg/snapshot/prune.go:38-51 | with any set of marks the loop over both directory levels removes exactly what is not marked and counts each once |
| Snapshots.SnapshotStore.Sweep | pkg/snapshot/prune.go:39-50 | one prefix directory keeps exactly its referenced entries |
| Snapshots.Mark | pkg/snapshot/prune.go:13-30 | collects exactly the hashes named by readable pointers |
| SnapshotEffects.CreateSeen | pkg/snapshot/create.go:35-56 | the new pointer has the hash and the number of the bytes, the blob is stored if its hash was free, every other pointer and blob stays |
| SnapshotEffects.DeleteSeen | pkg/snapshot/delete.go:10-18 | the pointer is gone, every other pointer and every blob stays |
| SnapshotEffects.RemoveSeen | pkg/sandbox/store.go:212 | all pointers of the sandbox are gone, everything else stays |
| SnapshotEffects.ReferencedIff | pkg/snapshot/prune.go:13-30 | a hash is kept if and only if it is not empty and some readable pointer names it |
| SnapshotEffects.SweepCounts | pkg/snapshot/prune.go:38-51 | a sweep leaves exactly the marked content directories and reports as many as there are fewer |
| Snapshots.ApplyKeepsInv | pkg/snapshot/create.go:35-56 | each operation, and a crash at either point inside create, keeps blobs keyed by their own hash and pointers resolving |
| Snapshots.PointersAlwaysResolve | pkg/snapshot/rollback.go:11-27 | over any run every pointer with a hash resolves to a blob whose bytes hash to it |
| Snapshots.PruneLeavesReferenced | pkg/snapshot/prune.go:38-51 | after a prune the hashes stored, re-joined from their two parts, are exactly the referenced ones, each blob unchanged |
| Snapshots.ApplyKeepsSnapshot | pkg/snapshot/prune.go:12-52 | an operation that leaves a snapshot alone keeps its pointer and its blob |
| Snapshots.RollbackGivesKept | pkg/snapshot/create.go:40-51 | after any such run the pointer leads to the blob first stored under its hash |
| Snapshots.SnapshotRoundTrip | pkg/snapshot/rollback.go:11-37 | rollback gives a tree of the same hash, and the identical tree if and only if the hash was new or its blob already was that tree |
| Snapshots.RenamedFileComesBackUnderOldName | pkg/snapshot/storage.go:109-127 | two workspaces that differ in a file name share a blob, so one comes back as the other |
| Snapshots.SweepAroundCreate | pkg/snapshot/prune.go:38-51 | with marks of any age: a sweep before the blob step does no harm; between the steps and after them the snapshot resolves if and only if its hash was marked |
| Snapshots.MarkAroundCreate | pkg/snapshot/prune.go:13-30 | marks taken before the pointer step hold the hash if and only if an earlier pointer named it; taken after, they hold it |
| Snapshots.PruneInsideCreate | pkg/snapshot/create.go:40-56 | with mark and sweep both between blob and pointer the snapshot resolves if and only if an earlier pointer named its hash |
| SnapshotRaces.SweepSafeIff | pkg/snapshot/prune.go:40-50 | sweeping one directory keeps everything needed if and only if its hash is marked or not needed |
| SnapshotRaces.BeginSafeIff | pkg/snapshot/create.go:40-41 | a look keeps everything whole if and only if it does not find a directory whose bytes are not those of the hash |
| SnapshotRaces.CopySafeIff | pkg/snapshot/create.go:46-49 | one write of a copy keeps everything whole if and only if it fails, or the directory has its hash afterwards, or no one needs it and it is not the last |
| SnapshotRaces.StepSafeIff | pkg/snapshot/create.go:40-56 | exactly those looks, writes and sweeps do harm; renaming into place, writing a pointer, marking and deleting never do |
| SnapshotRaces.RacesSafeIff | pkg/snapshot/prune.go:12-52 | over every interleaving of creates, deletes and prunes, wherever they stop, every pointer written or about to be resolves at every moment to bytes of its hash if and only if no step is harmful |
| SnapshotAlone.CreateAlone | pkg/snapshot/create.go:40-56 | the steps of a create with nothing between them are the create of the store, on one device or two, whether or not the blob was there |
| SnapshotAlone.PruneAlone | pkg/snapshot/prune.go:12-52 | looks at all pointers and then sweeps of all content, with nothing between them, are the prune of the store |
| SnapshotRaces.ApartIsSafe | pkg/snapshot/create.go:40-56 | without a create starting on a hash another is still placing and without a sweep of an unmarked hash that is needed or being created, everything stays whole, on one device or several |
| SnapshotRaces.SameTreeMayOverlap | pkg/snapshot/create.go:40-51 | creates of the same tree may overlap in any way where renames work: the late one writes the tree over itself |
| SnapshotRaces.TreesMerge | pkg/snapshot/create.go:40-51 | two overlapping creates whose trees hold the same bytes under different names leave a blob that is neither, of another hash unless SHA-256 collides, without any prune |
| SnapshotRaces.HalfCopyTaken | pkg/snapshot/create.go:40-50 | a create that finds another's cross-device copy just begun finishes with a snapshot that comes back empty |
| SnapshotRaces.DeletesMayOverlap | pkg/snapshot/prune.go:12-52 | once all pointers are marked, with no create under way, deletions may overlap the sweep and nothing needed goes |
| AgentRuns.AgentRunStore.Create | pkg/sandbox/agent_run.go:51-76 | refused exactly while the sandbox's latest run is STARTING or RUNNING, else one PENDING run is recorded and pointed at |
| AgentRuns.AgentRunStore.UpdateState | pkg/sandbox/agent_run.go:110-134 | succeeds exactly for a known run that is not over, and changes that run alone |
| AgentRuns.RunService.StartAgentRun | pkg/api/agent_run.go:50-55 | the start handler to the return of Create is one protocol step |
| AgentRuns.RunService.CancelAgentRun | pkg/api/agent_run.go:99-114 | a run that is over cannot be cancelled; the check and the update are separate steps |
| AgentRuns.RunService.CompleteAgentRun | pkg/api/agent_run.go:158-162 | an unknown run is ignored |
| AgentRuns.RunService.Resume | pkg/api/agent_run.go:57-168 | a handler's next atomic action, and nothing of any other handler |
| AgentRuns.RunService.FinishRun | pkg/api/agent_run.go:144-148 | only the handler whose update succeeded goes on to report |
| AgentRuns.StartKeepsInv | pkg/api/agent_run.go:49-55 | a start with a fresh id keeps one driver per live run |
| AgentRuns.TerminateKeepsInv | pkg/api/agent_run.go:144-154 | the update that ends a run makes its handler the one announcer |
| AgentRuns.NextKeepsInv | pkg/api/agent_run.go:22-168 | every step keeps: a live run has one driver and no report, a finished one exactly one report pending or emitted |
| AgentRuns.RunKeepsInv | pkg/api/agent_run.go:22-168 | the invariant holds at every point of every interleaving |
| AgentRuns.StateNeverGoesBack | pkg/sandbox/agent_run.go:107-134 | between any two moments no rank drops, no terminal run changes, no event is withdrawn |
| AgentRuns.CompletedExactlyOnce | pkg/api/agent_run.go:141-154 | once all handlers are done every run is over and was reported exactly once with its final state and exit code |
| AgentOutcomes.OutcomeOfRequests | pkg/api/agent_run.go:134-168 | once all handlers are done: a run no cancel and no report named is COMPLETED with exit code 0; a FAILED one has the code and text of a report of it that carried either; a CANCELLED one was cancelled by request; and the event said so |
| AgentOutcomes.EnderDecides | pkg/api/agent_run.go:134-168 | whoever ends a run decides its outcome for good: the supervisor completes it, a cancel cancels it, a report fails it if and only if it carries a code or a text |
| AgentOutcomes.SomeoneEnded | pkg/api/agent_run.go:134-168 | every run that is over was ended by such a step |
| AgentOutcomes.AlwaysAccounted | pkg/api/agent_run.go:134-168 | at every moment the state, code and text of each run are those the requests so far account for |
| AgentOutcomes.StartedOnceIff | pkg/api/agent_run.go:57-66 | pi.run.started is emitted exactly once for a run that was ever STARTING and never for another |
| AgentOutcomes.StartAlone | pkg/api/agent_run.go:49-70 | a start left alone takes its run to COMPLETED, reports both ends and touches no other run |
| AgentOutcomes.CancelAlone | pkg/api/agent_run.go:99-116 | a cancel left alone cancels a live run, reports it and answers so; otherwise it changes nothing |
| AgentOutcomes.ReportAlone | pkg/api/agent_run.go:158-168 | a report left alone ends and reports a live run; otherwise it changes nothing |
| AgentRuns.NeverReportedTwice | pkg/api/agent_run.go:141-154 | at no moment is a run reported twice, or reported while it can still change |
| AgentRuns.CancelAnswers | pkg/api/agent_run.go:99-116 | at every moment a run answered CANCELLED is over, and is cancelled if and only if the update of exactly one cancel handler won |
| AgentRuns.CancelAnswerTrueIff | pkg/api/agent_run.go:113-114 | once all handlers are done the answer CANCELLED is true if and only if some cancel of that run ended it |
| AgentRuns.CancelledThoughCompleted | pkg/api/agent_run.go:108-114 | an interleaving in which CANCELLED is answered of a run that has completed |
| AgentRuns.StartKeepsExclusive | pkg/sandbox/agent_run.go:55-61 | the guard keeps one live run per sandbox if and only if none is PENDING |
| AgentOutcomes.RefusedIffBusy | pkg/sandbox/agent_run.go:55-61 | a start is refused only if the sandbox has a run that is STARTING or RUNNING, and, unless a start fell during a PENDING run, whenever it has one |
| AgentRuns.OneActiveRunPerSandbox | pkg/sandbox/agent_run.go:51-76 | without a start during a PENDING run, at most one run of a sandbox is live at any moment |
| AgentRuns.OneActiveRunIff | pkg/sandbox/agent_run.go:51-76 | every sandbox has at most one live run at every moment if and only if no start falls during a PENDING run |
| AgentRuns.TwoActiveRuns | pkg/sandbox/agent_run.go:55-61 | an interleaving of two starts that leaves two live runs in one sandbox |
| Templates.DigestIdentifiesDefinition | pkg/template/digest.go:14-27 | digests are equal if and only if the templates agree in every field but source, lineage and the two timestamps, collisions aside |
| Templates.WriteKeepsHistory | pkg/template/template.go:230-252 | a write cut off anywhere leaves the index gapless and earlier indexed files untouched |
| Templates.HistorySurvivesCrashes | pkg/template/revision.go:28-68 | after any number of writes cut off anywhere the index is n..1 and every indexed file holds the bytes it was indexed with |
| Templates.UnreadableIndexRestarts | pkg/template/revision.go:34-42 | an unreadable index restarts at 1; old files all survive if and only if the number taken was free or held the same bytes |
| Templates.EachDefaultOnce | pkg/template/template.go:261-280 | in every iteration order each missing default is written once and nothing else changes |
| Templates.ApplyKeepsStore | pkg/template/template.go:230-280 | install, fork, import, rollback and delete keep every history a lineage chain |
| Templates.LineageAlwaysChains | pkg/template/revision.go:85-113 | in every crash-free run each later revision names the digest before it and is one generation on |
| Templates.RollbackRestores | pkg/template/revision.go:85-113 | restores the chosen digest, keeps all revisions, and rolling back to the number that was newest undoes it |
| Templates.ForkDigest | pkg/template/fork.go:25-45 | a fork keeps its source's digest if and only if it keeps the name, collisions aside, and descends from it |
| Templates.ImportDigest | pkg/template/bundle.go:244-254 | an import keeps the digest if and only if it keeps the name, and starts at generation 1 |
| TemplateEffects.ForkSeen | pkg/template/fork.go:12-52 | when a fork succeeds, and what it then is: the source under the new name with its own origin, dates and lineage, every other template as it was |
| TemplateEffects.RollbackSeen | pkg/template/revision.go:85-113 | when a rollback succeeds, and what it then writes: the chosen revision with a later date, following what was current |
| TemplateEffects.ImportSeen | pkg/template/bundle.go:231-265 | when an import succeeds, and what it then is: the definition under the chosen name with the bundle's origin and a first lineage |
| TemplateEffects.DeleteSeen | pkg/template/template.go:255-258 | a deleted template and its revisions are gone, the next of that name starts at revision 1, the others stay |
| TemplateEffects.LoadNames | pkg/template/template.go:212-227 | a nameless template is given its directory's name and nothing else is changed |
| TemplateEffects.GenerationsCount | pkg/template/revision.go:95-108 | in a chain the generations count up by one from the first revision's |
| TemplateEffects.HistorySorted | pkg/template/revision.go:54-68 | whatever order the index is in, the history is its entries, newest first |
| TemplateEffects.NextNumberIsFresh | pkg/template/revision.go:34-38 | the number taken is past every number in the index, by one |
| TemplateCrashes.WholeAttemptIsRollback | pkg/template/revision.go:85-113 | a rollback that is not cut off is the rollback of the store |
| TemplateCrashes.CutOff | pkg/template/template.go:241-250 | stopped after the first or second write, the history stands and the definition is a generation ahead of it |
| TemplateCrashes.Finished | pkg/template/revision.go:95-108 | a finished rollback adds a link that holds if and only if the definition was the newest revision |
| TemplateCrashes.ChainHoldsIff | pkg/template/revision.go:85-113 | after any rollbacks cut off anywhere the chain holds if and only if no finished one came right after one cut off between its writes |
| TemplateRaces.AloneIsCreate | pkg/template/template.go:230-252 | a writer nothing comes between makes the write of the store |
| TemplateRaces.DisjointInTurn | pkg/template/revision.go:28-51 | if none reads the history while another is between its read and its index, the history stays gapless and true at every moment and each finished writer has a revision in it |
| TemplateRaces.RevisionsSurviveIff | pkg/template/revision.go:28-51 | for any number of writers under every schedule: as many revisions are added as writers finished if and only if none read the history while another was between its read and its index, and fewer otherwise |
| TemplateRaces.TwoFirstRevisions | pkg/template/revision.go:34-50 | two writers both take number 1; the index names the first one's digest and the file holds the second's definition |
| TemplateStore.TemplateStore.Create | pkg/template/template.go:230-252 | writes template.yaml, the revision file and the index in that order, stopping at any of them |
| TemplateStore.TemplateStore.AppendRevision | pkg/template/revision.go:28-51 | takes the number after the newest known and puts it first in the index |
| TemplateStore.TemplateStore.ReadHistory | pkg/template/revision.go:54-68 | newest first, empty without an index, an error when it does not parse |
| TemplateStore.TemplateStore.ReadRevision | pkg/template/revision.go:71-81 | the decoded revision file, if there is one |
| TemplateStore.TemplateStore.Read | pkg/template/template.go:212-227 | the decoded definition, named after its directory when nameless |
| TemplateStore.TemplateStore.RollBack | pkg/template/revision.go:85-113 | writes the restored template as a new revision, or changes nothing |
| TemplateStore.TemplateStore.ForkTemplate | pkg/template/fork.go:12-52 | refuses an empty or taken name and a missing source, changing nothing |
| TemplateStore.TemplateStore.ImportTemplate | pkg/template/bundle.go:236-264 | refuses a taken name, changing nothing; else installs the marked copy |
| TemplateStore.TemplateStore.InstallDefaults | pkg/template/template.go:261-280 | the result is that of some order of all the defaults |
| TemplateRefs.NumberRoundTrip | pkg/template/revision.go:40 | a revision number reads back from its file name, so different numbers never share a file |
| TemplateRefs.SignedNumbers | pkg/template/revision.go:116-124 | signs are read, and numbers that need more than 64 bits are refused |
| TemplateRefs.RefsResolve | pkg/template/revision.go:116-125 | name and name@N resolve to the template and to its N-th revision |
| TemplateRefs.RefAt | pkg/template/revision.go:116-124 | what follows the first @ must be a number; anything else, a second @ included, is refused |
| TemplateRefs.LineDiffLoop | pkg/template/revision.go:136-163 | the two passes write the lines each side has alone, in order |
| TemplateRefs.DiffSeesLineSets | pkg/template/revision.go:136-163 | reports no difference if and only if both texts have the same set of lines |
| TemplateRefs.DiffMarksSides | pkg/template/revision.go:136-163 | a report has a `- ` line for each line only the first text has, then a `+ ` line for each only the second has, and no other |
| TemplateRefs.OnlyAround | pkg/template/revision.go:147-158 | and those lines are in the order of their texts |
| TemplateRefs.DiffMissesReordering | pkg/template/revision.go:128-163 | documents that differ in the order of two lines, as YAML with reordered tools, are taken for equal |
| TemplateRules.Validate | pkg/template/validate.go:21-81 | every problem a template has is reported and no other, in every map order; none if and only if it is valid |
| TemplateRules.ValidIff | pkg/template/validate.go:21-81 | the valid templates, rule by rule |
| TemplateRules.ToolProblems | pkg/template/validate.go:49-56 | a tool is bad exactly when its first colon has nothing on one side |
| TemplateRules.CacheProblems | pkg/template/validate.go:35-42 | reports exactly the cache destinations that are relative or outside /cache/ |
| TemplateRules.MountProblems | pkg/template/validate.go:43-47 | reports exactly the relative mount destinations |
| TemplateRules.RuntimeProblems | pkg/template/validate.go:58-67 | reports exactly the unknown modes and the unknown states |
| TemplateRules.HalfIffEmptySide | pkg/template/validate.go:50-52 | cutting at the first colon finds an empty side exactly when that colon is first or last |
| Bundles.ExportBundle | pkg/template/bundle.go:70-145 | exports exactly the valid templates, as the five-entry layout |
| Bundles.PackLayout | pkg/template/bundle.go:120-144 | one entry per blob, named by its hash |
| Bundles.ReadBundle | pkg/template/bundle.go:157-226 | the reader's verdict on any bytes, errors in the order they are checked |
| Bundles.GatherIff | pkg/template/bundle.go:162-184 | entries are taken in if and only if each blob hashes to its file name, and each is then stored under its own hash |
| Bundles.AlteredBlobRefused | pkg/template/bundle.go:177-181 | one altered or misnamed blob makes the whole bundle refused |
| Bundles.PackThenRead | pkg/template/bundle.go:193-225 | any valid template packed with any provenance reads back as both, so the recorded digest is not checked against the definition |
| Bundles.ExportThenRead | pkg/template/bundle.go:70-226 | export succeeds if and only if the template is valid, and reads back as the template with its source, lineage and content digest, or two of its blobs collide |
| Bundles.AcceptedManifest | pkg/template/bundle.go:186-225 | an accepted bundle's manifest is the one its index names and of the right type, and its template is the one layer and validates |
| Bundles.AcceptedIff | pkg/template/bundle.go:157-225 | a bundle is accepted if and only if the tar reads to its end, every blob hashes to its name, the index names a manifest of the right type with one layer, and that is there, readable and valid |
| Bundles.LastIndexCounts | pkg/template/bundle.go:174-176 | of several index files the last one counts |
| Bundles.ExportDescribesItself | pkg/template/bundle.go:70-145 | an export has exactly five entries; its index and manifest give each blob's type, hash and length and the template's name and digest; its provenance says who exported it and when |
| Bundles.OneDigestOneTemplate | pkg/template/bundle.go:193-225 | accepted bundles whose indexes name one manifest digest hold one template, and read alike if and only if both or neither carry the config blob or the one carried says nothing, or two blobs collide |
| Bundles.StrippedReads | pkg/template/bundle.go:220-223 | a layout without its config entry is accepted under the same manifest digest, with empty provenance |
| Bundles.ProvenanceCanBeStripped | pkg/template/bundle.go:193-223 | two accepted bundles of one manifest digest and different provenance |
| Bundles.ImportInto | pkg/template/bundle.go:231-265 | installs what the bundle holds, or changes nothing |
| Bundles.TravelsWithDigest | pkg/template/bundle.go:231-265 | exported here and imported there, a template keeps its digest if and only if it keeps its name, remembers its origin and starts a lineage |
| Contexts.ValidateIff | pkg/context/store.go:121-160 | no rule is broken if and only if name and target are set and the auth type is the one of the transport, with a one-word variable for http |
| Contexts.CreateKeepsGood | pkg/context/store.go:163-179 | creating keeps names distinct and unreserved, entries valid, the active name resolving |
| Contexts.UpdateKeepsGood | pkg/context/store.go:182-207 | so does updating |
| Contexts.DeleteKeepsGood | pkg/context/store.go:273-294 | so does deleting, also the active context |
| Contexts.ActiveNeverFails | pkg/context/store.go:252-260 | a well-formed state always has an active context, and a valid one |
| Contexts.CreateSeenByGet | pkg/context/store.go:163-179 | afterwards the new name gives the new context, after the others in the file, and every other name what it gave |
| Contexts.UpdateSeenByGet | pkg/context/store.go:182-207 | only the named context changes, in its place, and the active name does not |
| Contexts.DeleteSeenByGet | pkg/context/store.go:273-294 | only the named context goes, and local becomes active if it was the active one |
| Contexts.UseSeenByGet | pkg/context/store.go:235-249 | a known name becomes the active one, an unknown one is refused, and every name gives what it gave |
| Contexts.SucceedsIff | pkg/context/store.go:163-294 | create, update and delete succeed if and only if the context is valid, the name free or known as needed, kept, and not reserved |
| Contexts.LoadSeen | pkg/context/store.go:84-104 | loading gives the file's contexts as they are and never an empty active name |
| Contexts.CreatedAsAsked | pkg/api/contexts.go:196-212 | what is created has every field of the request |
| Contexts.UpdatedAsAsked | pkg/api/contexts.go:196-212 | so does what is updated, and the name may be left out |
| Contexts.SecretsRefused | pkg/api/contexts.go:214-222 | under every schedule a request that carries a raw secret is refused and never saves |
| Contexts.UnreadableFileStays | pkg/context/store.go:84-104 | a file that does not parse stays as it is under every schedule, and no call succeeds |
| Contexts.CreateThenDelete | pkg/context/store.go:163-294 | deleting what was just created restores the state |
| Contexts.InferredAuthFits | pkg/api/contexts.go:196-245 | with the auth type left out only a missing name, target, transport or token variable can be wrong |
| Contexts.NextKeepsInv | pkg/api/contexts.go:72-194 | every load step and every change-and-save step keeps the file and all loaded copies well formed |
| Contexts.FileAlwaysGood | pkg/context/store.go:84-118 | from an absent file, under any overlap of handlers, the file loads, is well formed and has an active context |
| Contexts.UnoverlappedIsSerial | pkg/api/contexts.go:72-194 | with no save between another handler's load and its save the file is as if the calls had run one after the other |
| Contexts.CreatesSurviveIff | pkg/api/contexts.go:72-95 | for handlers each creating a context of their own, under every schedule: no reported context is missing, and the file is that of a serial run, if and only if no save falls between another handler's load and its save |
| Contexts.SecondWriterWins | pkg/api/contexts.go:84-92 | two handlers that both load first end with the second's change alone, both told of success |
| Contexts.CreatedContextLost | pkg/api/contexts.go:84-93 | a context reported as created can be gone |
| ContextStore.ContextStore.Load | pkg/context/store.go:84-104 | an absent or empty file is the state with local active; an unparsable one is an error |
| ContextStore.ContextStore.Create | pkg/context/store.go:163-179 | changes state and file together, or neither |
| ContextStore.ContextStore.Update | pkg/context/store.go:182-207 | replaces the entry in place, or changes nothing |
| ContextStore.ContextStore.Use | pkg/context/store.go:235-249 | makes a known name active, or changes nothing |
| ContextStore.ContextStore.Delete | pkg/context/store.go:273-294 | removes the entry and resets an active name that pointed at it |
| ContextStore.ContextStore.Get | pkg/context/store.go:210-222 | the named entry; local always answers |
| ContextStore.ContextStore.Active | pkg/context/store.go:252-260 | never fails on a well-formed state |
| ContextStore.ContextStore.List | pkg/context/store.go:225-232 | every stored context and local, as often as stored, in order of name, those of one name as they were |
| ContextStore.Handle | pkg/api/contexts.go:72-194 | a handler left alone is its load step followed by its save step |
| WorkspacePath.ResolveIff | pkg/api/workspace_ops.go:40-53 | accepted if and only if walking the components ends at or below /workspace; the result is that place and has no empty, `.` or `..` component |
| WorkspacePath.StepsCancel | pkg/api/workspace_ops.go:48 | anywhere in a path a name followed by `..` leads back, `.` and empty components lead nowhere, and `..` at the root stays there |
| WorkspacePath.DetoursDoNotMatter | pkg/api/workspace_ops.go:40-53 | `a/name/../b` leads where `a/b` does |
| WorkspacePath.DotsDoNotMatter | pkg/api/workspace_ops.go:40-53 | so do `a/./b` and `a//b` |
| WorkspacePath.PrefixTest | pkg/api/workspace_ops.go:49 | the string-prefix test on the cleaned path is a test of its first component |
| WorkspacePath.RelativeAndAbsoluteAgree | pkg/api/workspace_ops.go:41-47 | surrounding blanks never matter and a relative path resolves like the same path under /workspace |
| WorkspacePath.ResolveAgainIff | pkg/api/workspace_ops.go:40-53 | resolving a result again gives the same result if and only if it does not end in a blank |
| WorkspacePath.BlankUncovered | pkg/api/workspace_ops.go:40-53 | an accepted path whose result is itself refused |
| WorkspacePath.StackOfRendered | pkg/api/workspace_ops.go:48 | a cleaned path walks back to the components it was made of |
| Reconcile.SandboxStore.OrphanCleanup | pkg/sandbox/orphans.go:15-59 | marks exactly the CREATING and EXECUTING sandboxes under UUID names, unreadable ones skipped |
| Reconcile.SandboxStore.UpdateState | pkg/sandbox/store.go:123-136 | changes the state of one record, if it can be read and written |
| Reconcile.ReconcileContainers | pkg/runtime/compat/reconcile.go:27-65 | reports exactly the active sandboxes whose container is gone, one per name, and removes exactly the prefixed containers without one |
| Reconcile.ReconcileCompatContainers | pkg/daemon/daemon.go:196-237 | marks what was reported missing; does nothing without an active compat sandbox or an engine |
| Reconcile.CollectActive | pkg/daemon/daemon.go:203-216 | the compat sandboxes that are WARM or EXECUTING, in listing order |
| Reconcile.StartupPass | pkg/daemon/daemon.go:131-137 | both passes in order, for any failing removals and updates |
| Reconcile.ActiveNames | pkg/runtime/compat/reconcile.go:38-41 | every container name of an active id maps to one id of that name |
| Reconcile.StartupAgreesIff | pkg/daemon/daemon.go:196-237 | nothing is left CREATING or EXECUTING, and containers agree with WARM compat sandboxes if and only if no two of those shared a missing container and, without any, there was no container |
| StartupFates.ContainerFates | pkg/daemon/daemon.go:196-237 | whatever fails: a container goes if and only if there is an engine, some compat sandbox still counts as running, the container bears the prefix but none of their names, and its removal works |
| StartupFates.RecordFates | pkg/daemon/daemon.go:196-237 | whatever fails: an unfinished record that can be changed and one whose container alone of its name is missing end DESTROYED, the others and all modes stay |
| StartupFates.UuidIff | pkg/sandbox/orphans.go:10-11 | the names cleaned up are five dashed groups of hexadecimal digits |
| Reconcile.DistinctPrefixesAgree | pkg/runtime/compat/create.go:129-131 | with distinct first eight characters and one WARM compat sandbox they agree |
| Reconcile.OtherModesLoseContainers | pkg/daemon/daemon.go:202-216 | a WARM sandbox of another mode stays WARM and keeps its container if and only if no compat sandbox is WARM or one shares its name |

## Left out

- JSON text: event data is bytes. The escaping of event strings, and the replacement of a
  character cut by the 4096-byte read buffer, are not modelled.
- TextDecoder details: the byte order mark, and substitution of U+FFFD on a wire that is not
  UTF-8 (the clients are proved on UTF-8 wires).
- Durations of commands, working directories and how a timeout comes about: whether the
  command starts, how it ended and whether it timed out are parameters.
- Shell expansions (parameters, commands, arithmetic, patterns, tilde), here-documents,
  aliases and the keywords only some shells reserve: a script with an expansion is outside the
  lexer and grammar here.
- Trees.CopyDir: directories are values handed in and out, so copying a directory into
  itself is not expressible; file modes, symbolic links, other special files and times are
  not modelled.
- Snapshots.SnapshotStore.Create: here the cross-device copy is whole; copies that stop halfway
  are in SnapshotRaces. A torn meta.json is not modelled.
- Snapshots.SnapshotStore.Rollback: the copy failing after the workspace was cleared is not
  modelled. The directory of a pointer without a hash, which predates the content-addressed
  store, is a parameter.
- The second snapshot store in pkg/snapshot/storage.go: nothing in the API uses it, and it
  copies into existing content directories.
- TemplateStore.TemplateStore.Create: a file is written whole or not at all; a torn index is
  covered only as an index that does not parse.
- SnapshotRaces.RacesSafeIff: removing one content directory is one step, so a look or a write
  that falls inside the removal is taken as before or after it; writing one file of a copy is
  one step.
- TemplateRaces.RevisionsSurviveIff: what each writer is about to write is settled before it
  starts; a rollback or fork that reads while another writes may also start from an older
  definition.
- Templates.LineageAlwaysChains: templates promoted from a sandbox or edited by other writers
  do not take part.
- Audit entries, template listing, image name mappings and the built-in definitions.
- Bundles.ReadBundle: the wording of error messages beyond their kind; tar headers other than
  names.
- Clocks: times are parameters. Identifiers of runs are assumed fresh.
- Contexts.FileAlwaysGood: reading and writing the file are atomic; a write that fails after
  truncating the file is not modelled. Listing and looking up contexts over HTTP only read.
- WorkspacePath.ResolveIff: path.Clean is modelled by its documented rules for rooted paths,
  as a stack of components, not by its byte buffer.
- Reconcile.StartupPass: engine and store are reached in one piece; containers of all modes
  are taken to live in one engine, and names are compared by characters.
- Code that hands work to something outside it: HTTP routing, process launch, container
  command lines, network proxies and the user interfaces.
- Code that computes one answer in a single pass over its inputs: choosing a runtime, matching
  hosts against allowlists, merging policies, numbering log entries and choosing the cache
  directories to prune.
- Mutual exclusion of exec and the transition table of sandbox states: the code checks and
  updates in separate steps and does not consult the table when it writes.
