# QCode: a verified model of its stateful cores

QCode is a desktop and web coding agent. This project models, in Dafny, the parts of it that keep
state across failures and concurrent callers, and proves what they can be relied on for.

| file | component |
|---|---|
| Connections.dfy | the set of model connections and the operations that change it |
| SerialOrder.dfy | when an operation computed from an older selection is the same in series |
| Rotation.dfy | the stage, activate, commit transaction over one credential |
| Routing.dfy | the Server's workspace routing table |
| Reconfiguration.dfy | the compensating transaction that replaces the connection set under live Runtimes |
| ConnectionControl.dfy | the setup, connection and model operations built on it |
| Lifecycle.dfy | the interleavings of Add, Remove, reconfiguration and Close |
| Refinement.dfy | the transaction as a run of those interleavings |
| MemoryRecords.dfy, MemoryStore.dfy | the durable memory records and the processes that share them |
| MemoryEncoding.dfy, MemoryFull.dfy | the length of the records file, and how it reaches its limit |
| MemorySearch.dfy, PromptBlock.dfy | ranked search within budgets and the escaped prompt block |
| Breaker.dfy | the circuit breaker of an MCP server |
| Pool.dfy | the pool of MCP servers, its published lists and tool name collisions |
| Prewarm.dfy | the refresh worker |
| HttpSession.dfy | the MCP HTTP session, reconnection and replay |
| Sse.dfy | the two server-sent event parsers |
| SkillPages.dfy, SkillDiscovery.dfy | paging of skills and the walk that finds them |
| Ordering.dfy, Common.dfy | sorting, and small shared types |

Objects whose methods change them in place are classes. Their methods are proved against functions
of the state before, and the theorems are about those functions, their runs and their
interleavings; a locked section is one step. A call that can fail takes its outcome as a parameter,
so a contract holds for every pattern of failures. Workspace IDs, server names, tool names and
credential references are only compared and ordered, and appear as numbers. Hashes are taken to be
injective: the content stands for a record's digest, and IDs are derived from distinct identities.
Where text is processed a string is a sequence of bytes.

Seven findings are stated as theorems, each with the exact condition under which the code does what
its documentation promises, and a run or input that shows the failure beside it:

- A save that fails after its rename is not compensated: `ConnectionControl.FileRestoredExactlyWhen`.
- Close does not wait for a change in flight: `Lifecycle.CommitConservesExactlyBeforeDrain`.
- Two overlapping refreshes can bring a disabled server back: `Prewarm.BlockedLeaveExactlyWhen`.
- A memory file of exactly the size limit saves but never loads: `MemoryStore.CommitStaysLoadable`.
- Repeated pins can rank a pinned memory behind others: `MemorySearch.PinnedPrecedesExactlyWhen`.
- A call in flight can heal a server flagged for a name collision: `Pool.CatalogUniqueExactlyWhen`.
- An operation on connections or models can drop what others committed since it read the
  selection: `SerialOrder.SerialExactlyWhen`.

The comments at `internal/host/credential_rotation.go:93-95` say that a rotation is recorded only
while pending; `internal/host/workspace_manager.go:520-531` also records an idle one. The model
follows the code (`ConnectionControl.IdleStagingWritesBack`).

## Model

| member | source | states |
|---|---|---|
| Reconfiguration.Manager.ReplaceSelectionStaged | internal/host/workspace_manager.go:400-594 | Refused exactly when closing, reconfiguring, loading, unbound or the Server is reconfiguring; otherwise the change ends exactly at the stage its first failing call gives. An error leaves selection, reference, live Runtimes, routing table and default workspace as they were, the Runtimes built, those up to the first workspace that fails, closed once, and the file untouched before the save and compensated after it. Success installs a rebuilt Runtime for exactly the old workspaces, closes exactly the replaced ones and saves the selection; a submitted key is then the credential of the default connection, of every Runtime and the reference, a caller's key that of its owner |
| Reconfiguration.OutcomeMeans | internal/host/workspace_manager.go:520-592 | What a change leaves, field by field: selection and reference with the key in its place, Runtimes with workspace, root and credential, and the file |
| Reconfiguration.SucceedsExactlyWhen | internal/host/workspace_manager.go:400-594 | A change succeeds exactly when no call it makes fails: loads, builds and routings of its workspaces, the controls it opens and the key it stages, both idle checks, the save and the activations |
| Reconfiguration.PreparesExactlyWhen | internal/host/workspace_manager.go:484-519 | Every workspace is rebuilt exactly when none of them fails to load or build and no control it opens, or key it stages, fails |
| Reconfiguration.PrefixPrepares | internal/host/workspace_manager.go:484-519 | A rebuild loop that stops after a prefix of the sorted workspaces has rebuilt exactly those whose turn and every earlier one work |
| Reconfiguration.Manager.ReplaceBegun | internal/host/workspace_manager.go:458-467 | The same while the reconfiguring flags are held, with or without live Runtimes: the stage is exactly that of the first failing call |
| Reconfiguration.Manager.ReplaceAttached | internal/host/workspace_manager.go:468-594 | The same over at least one live Runtime: preparing, the second idle check, then the installation, each failing exactly when its calls do |
| Reconfiguration.Manager.Install | internal/host/workspace_manager.go:535-593 | From the save on: every Runtime built becomes live exactly when save, activation and routing all work, otherwise all of them are closed, their key is rolled back and nothing else has changed |
| Reconfiguration.Manager.TryInstall | internal/host/workspace_manager.go:539-570 | Save, activation of the caller's rotation, of the Runtimes' rotations, then routing: the first of them that fails is the stage reached, and unless all succeed the routing table and its default are the old ones and the file is compensated as far as a save wrote |
| Reconfiguration.Manager.Switch | internal/host/workspace_manager.go:572-592 | The commit point takes over selection, reference and Runtimes, commits every rotation and closes exactly the replaced Runtimes |
| Reconfiguration.Manager.ConfigureWithoutRuntime | internal/host/workspace_manager.go:112-159 | Setup without Runtimes: preparing, saving, recording the roots and activating decide the stage in this order; selection and reference change only on success, the file follows the stage, the key is committed or rolled back |
| Reconfiguration.Ledger.PrepareAll | internal/host/workspace_manager.go:484-519 | The rebuild loop rebuilds a prefix of the sorted workspaces, up to exactly the first whose load, control, staging or build fails; the Runtimes keep workspace and root and all use the change's credential; only the first stages the secret |
| Reconfiguration.Ledger.PrepareRuntime | internal/host/launcher.go:814-905 | A Runtime is returned exactly when its rotation opens and its build works; a failed build rolls the rotation back |
| Reconfiguration.Ledger.ClosePrepared | internal/host/workspace_manager.go:476-483 | Closes every Runtime built, none of which was closed before, and rolls every rotation back |
| Reconfiguration.Ledger.CloseAll | internal/host/workspace_manager.go:590-592 | Closes each Runtime of a set once |
| Reconfiguration.InheritedCredential | internal/host/workspace_manager.go:384-393 | Whatever earlier Runtimes staged, each Runtime gets the change's one credential, and only the first can be pending |
| Reconfiguration.AtMostOnePending | internal/host/workspace_manager.go:493-518 | At any point of the rebuild at most one rotation is pending, and none beside a caller's own |
| Reconfiguration.ActivateRotations | internal/host/workspace_manager.go:546-553 | Activation in any map order fails exactly when the one pending rotation fails, and steps every rotation |
| Reconfiguration.StepRotations | internal/host/workspace_manager.go:587-589 | Each rotation takes the same control call once |
| Reconfiguration.BuiltIsNew | internal/host/workspace_manager.go:473-592 | Closing what was built, or what it replaces, keeps every Runtime ever prepared either live or closed |
| Reconfiguration.OwnOutcome | internal/host/workspace_manager.go:476-553 | A key staged by the change is committed by success and rolled back by failure at any stage |
| Reconfiguration.NothingDone | internal/host/workspace_manager.go:408-467 | A change refused or given up before its save leaves the file and the caller's rotation as they were; except after the second idle check it has no key of its own |
| ConnectionControl.StagedKeyStaysWithItsOwner | internal/host/workspace_manager.go:369-393 | A staged reference is written to its owning connection only, and a key of another connection reaches neither the route reference nor a Runtime |
| ConnectionControl.IdleStagingWritesBack | internal/host/workspace_manager.go:520-531 | Against bindTo, a keyless rotation still rewrites its owner's credential under live Runtimes: the selection stays the same exactly when the stored credential already is that reference |
| ConnectionControl.FileRestoredExactlyWhen | internal/host/workspace_manager.go:112-159 | A failed change leaves the file as it was exactly when it does not get to its save, the save writes nothing, or the save works and the compensating one writes; a save that fails after its rename is never compensated |
| ConnectionControl.RefusedSelectionStaysOnDisk | internal/host/workspace_manager.go:136-146 | On a fresh manager a setup whose save fails after its rename is refused, yet the selection file holds it |
| ConnectionControl.ChangeSelection | internal/host/workspace_manager.go:161-362 | setup/apply, connection/remove, connection/default and the model operations, computed from whatever selection they have seen, are refused exactly when the operation is invalid there, vetoed, or the manager is closing, reconfiguring, loading, unbound or its Server reconfiguring, else end where the first failing call puts them. They take effect as a whole or not at all; a key submitted with setup or a model registration is staged and becomes the credential of the default connection and of every Runtime, no other operation stages one, and the reference left is that key, the one recovered, or the one the operation routes with; the file is as it was after a failure exactly when no save fails half way uncompensated |
| ConnectionControl.ChangedMeans | internal/host/workspace_manager.go:161-362 | Selection, key, Runtimes and reference after each operation, field by field |
| ConnectionControl.InstalledSerialExactlyWhen | internal/host/workspace_manager.go:298-352 | With its credential write-back, an operation installs what it would have installed from the selection it replaces exactly under the condition of SerialOrder.SerialExactlyWhen |
| ConnectionControl.AddConnection | internal/host/workspace_manager.go:1132-1184 | connection/add ends exactly where the flags, its own control and then the transaction's first failing call put it; it changes only its own connection and never the default; its key is staged as submitted, reaches Runtimes only if its connection is the default, is committed on success and the previous one published again on failure |
| ConnectionControl.AddBeside | internal/host/workspace_manager.go:1163-1183 | The same when a connection exists already |
| ConnectionControl.AddedSelection | internal/host/workspace_manager.go:1163-1178 | The committed selection is the old one with this connection and the credential the key, the rebuild or the store gives it |
| ConnectionControl.BoundWellFormed | internal/host/workspace_manager.go:520-531 | Binding a staged key keeps a selection well formed |
| ConnectionControl.WithCredentialLookup | internal/host/credential_rotation.go:96-110 | Writing a credential changes what one connection ID looks up to and neither another one nor the active connection |
| Routing.Server.SwapAll | internal/host/workspace_manager.go:554-570 | All workspaces are routed to their rebuilt Runtimes or, at the first refusal, table and default are the old ones |
| Routing.Server.ActivateWorkspace | internal/host/server.go:264-287 | A refused workspace changes nothing; the default changes only if asked, if there is none or if it is the same workspace |
| Routing.Server.RemoveWorkspace | internal/host/server.go:241-262 | Only that workspace leaves the table; a removed default is replaced by the smallest remaining ID |
| Routing.Server.BeginRuntimeReconfiguration | internal/host/server.go:309-311 | Succeeds for one caller until ended |
| Rotation.CredentialRotation.Activate | internal/host/credential_rotation.go:112-128 | Follows the phase machine: a staged rotation publishes its key, a rolled back one refuses, any other is left alone |
| Rotation.CredentialRotation.Commit | internal/host/credential_rotation.go:130-148 | Refused before activation and after rollback, a no-op once idle or committed |
| Rotation.CredentialRotation.Rollback | internal/host/credential_rotation.go:150-159 | Restores the previous key from staged or activated and is a no-op otherwise |
| Rotation.CredentialRotation.Settle | internal/host/credential_rotation.go:163-178 | A failed change rolls back, a successful one commits |
| Rotation.CallsMean | internal/host/credential_rotation.go:112-159 | When activation, commit and rollback succeed, by phase, published key and failure, and what each leaves |
| Rotation.RunIsSound | internal/host/credential_rotation.go:28-39 | Over any calls and failures phases only move forward, a settled rotation never moves again and the published key agrees with the phase |
| Rotation.CommitNeedsActivation | internal/host/credential_rotation.go:130-148 | A run that ends committed contains a working activation |
| Rotation.PendingIsRecoverable | internal/host/credential_rotation.go:150-159 | Whatever failed before, one working rollback publishes the previous key again |
| Rotation.BindTouchesOnlyOwner | internal/host/credential_rotation.go:96-110 | Only the owner's credential changes, and only while the rotation is pending |
| Connections.ReachableSelectionsWellFormed | internal/host/workspace_manager.go:161-362 | Every selection reachable from empty, even from stale snapshots and with bound credentials, has unique connection IDs, a default among them and models strictly sorted and apart from the baseline |
| Connections.ApplyWellFormed | internal/host/workspace_manager.go:1200-1259 | Each operation keeps that invariant |
| Connections.AppliesExactlyWhen | internal/host/workspace_manager.go:232-352 | What each operation asks of the selection: which IDs must be there, and which must not |
| Connections.MergeTouchesOnlyTarget | internal/host/setup.go:238-269 | Merging changes only the target entry, keeps its stored credential and every position |
| Connections.MergeConnectionKeepDefault | internal/host/setup.go:248-269 | The merge loop replaces the entry of that ID or appends it |
| Connections.RegisterModel | internal/host/workspace_manager.go:298-349 | Registration and update of a model, with their refusals, as specified |
| Connections.UnregisterModel | internal/host/workspace_manager.go:242-267 | Removal of a model, with its refusals, as specified |
| Connections.DropConnection | internal/host/workspace_manager.go:1196-1240 | Removal of a connection, with its refusals, as specified |
| Connections.SortModelsStrict | internal/host/workspace_manager.go:346-348 | Sorting models of distinct IDs gives the strict order |
| Connections.AddThenRemoveModel | internal/host/workspace_manager.go:232-352 | Registering a model and removing it restores the selection |
| Connections.RegisteredModels | internal/host/workspace_manager.go:340-349 | Registration adds exactly one model, to the active connection |
| Connections.StaleRegistrationIsLost | internal/host/workspace_manager.go:307-310 | The failing case: of two registrations computed from one snapshot the second drops the first, which in series both survive |
| SerialOrder.SerialExactlyWhen | internal/host/workspace_manager.go:298-352 | A change computed from any earlier selection commits what it would commit from the last one exactly when the two differ at most in what the operation and its key overwrite, and, where only one of them lets it through, nothing is left to do; for all seven operations |
| SerialOrder.ModelChangeSerialExactlyWhen | internal/host/workspace_manager.go:232-352 | Where both let it through: a registration agrees exactly when the selections do, an update or removal exactly when they do but for that one model |
| SerialOrder.HistoryIsSerialExactlyWhen | internal/host/workspace_manager.go:307-310 | A history of concurrent changes is the history of the same changes in series exactly when every change meets that condition where it commits |
| SerialOrder.Put | internal/host/workspace_manager.go:298-352 | An operation is done afterwards and leaves what it does not overwrite as it was |
| SerialOrder.Determined | internal/host/setup.go:238-269 | A selection in which an operation is done is determined by what the operation does not overwrite |
| Lifecycle.ReachableStates | internal/host/workspace_manager.go:408-456 | In every interleaving without a commit after Close has drained: a change excludes loads, a workspace has at most one load and is never loading and live, live workspaces are registered, the Server routes exactly the live Runtimes outside changes and before the drain, and every Runtime prepared is in exactly one place |
| Lifecycle.StepKeepsInvariant | internal/host/workspace_manager.go:747-988 | Every locked section and unlocked call of Add, Remove, reconfiguration and Close, other than a commit after the drain, keeps that invariant |
| Lifecycle.EnabledExactlyWhen | internal/host/workspace_manager.go:408-988 | When each step of Add, Remove, reconfiguration and Close can be taken, in terms of the manager's fields and the change's locals |
| Lifecycle.DrainedForever | internal/host/workspace_manager.go:966-988 | Once drained with no change in flight nothing is live or prepared again and every Runtime ever prepared is closed exactly once |
| Lifecycle.ChangeIsIsolated | internal/host/workspace_manager.go:758-772 | While a change runs no step of Add or Remove can be taken, and of Close only the drain touches what the change works on |
| Lifecycle.CommitConservesExactlyBeforeDrain | internal/host/workspace_manager.go:572-592 | A commit keeps every Runtime in one place exactly when Close has not drained; otherwise every replaced Runtime is closed twice and the rebuilt ones stay live |
| Lifecycle.OverlapIsReachable | internal/host/workspace_manager.go:966-988 | Close does not wait for a change: that overlap is reached from the start |
| Lifecycle.WorkspaceCoordinated | internal/host/workspace_manager.go:786-841 | Add and Remove keep the mutual exclusions |
| Lifecycle.ChangeRouted | internal/host/workspace_manager.go:554-575 | Routing forth and back keeps the table between snapshot and rebuilt Runtimes, and equal to the live ones at the ends |
| Lifecycle.ChangeConserved | internal/host/workspace_manager.go:473-592 | A change moves Runtimes between places without losing or doubling one |
| Lifecycle.WorkspaceConserved | internal/host/workspace_manager.go:810-937 | So do Add and Remove |
| Lifecycle.Host.AdmitWorkspace | internal/host/workspace_manager.go:758-808 | Add's first section starts a load, registers, waits or refuses exactly when the protocol says |
| Lifecycle.Host.FinishLoad | internal/host/workspace_manager.go:820-847 | Add's second section makes the Runtime live and routed or hands it back for closing |
| Lifecycle.Host.RemoveWorkspace | internal/host/workspace_manager.go:862-937 | Remove drops the first matching root, the Runtime and its route, or changes nothing |
| Lifecycle.RemoveMeans | internal/host/workspace_manager.go:862-937 | Remove does nothing unless the workspace is registered, idle and not loading, no change is under way and the roots are saved; then the first matching root, the Runtime and its route go |
| Lifecycle.Host.BeginChange | internal/host/workspace_manager.go:408-450 | A reconfiguration begins exactly when nothing is closing, reconfiguring or loading |
| Lifecycle.Host.DrainActive | internal/host/workspace_manager.go:971-977 | Close's second section takes every live Runtime for closing |
| Refinement.ReplaceAsRun | internal/host/workspace_manager.go:400-594 | The sequential transaction refines the concurrent machine: whatever calls fail, the manager's fields after it, its closed Runtimes included, are those of a state the machine reaches by a run of one change, and a refused one leaves the state alone |
| Refinement.ChangeRefines | internal/host/workspace_manager.go:446-593 | From any state in which a change can begin there is a run of one change that builds exactly the transaction's Runtimes and leaves live and routed exactly what the transaction leaves; a refused routing is matched by routing and unrouting the workspaces before it |
| Refinement.ClosedAgree | internal/host/workspace_manager.go:476-592 | A Runtime is closed by the transaction exactly when it is closed or waits to be closed in the machine |
| Refinement.FailsRouting | internal/host/workspace_manager.go:554-570 | A change that has routed any of its workspaces when it is refused can route them back and end with table and live Runtimes as before |
| MemoryStore.NoLostUpdates | internal/adapter/memory/records.go:106-269 | For any processes interleaving lock, load, compute and save, the file is what the committed mutations give one after the other, one generation each, without a repeated ID or digest |
| MemoryStore.RepliesAreSerial | internal/adapter/memory/records.go:106-269 | Every reply is the one the serial history up to that point gives |
| MemoryStore.StoredAreNormal | internal/adapter/memory/records.go:438-528 | Every record a store can come to hold has a trimmed text, source and scope within their limits |
| MemoryStore.GenerationCountsCommits | internal/adapter/memory/records.go:135-139 | The generation rises by one with an effective mutation that was written and never otherwise |
| MemoryStore.StepKeepsInvariant | internal/adapter/memory/records.go:182-269 | Each step of each process keeps the serial history, the validity of the file and the freshness of IDs |
| MemoryStore.CommitStaysLoadable | internal/adapter/memory/records.go:552-598 | Save measures the encoding before its newline, load after it: a step keeps the file loadable unless it writes an effective mutation whose encoding is exactly the limit, and then never |
| MemoryStore.UnloadableForever | internal/adapter/memory/records.go:530-532 | A file of exactly the limit is never changed again |
| MemoryFull.UnloadableIsReached | internal/adapter/memory/records.go:552-598 | That happens: five hundred Remembers of notes within every bound, by one process at one a second, fill the file to exactly the limit, and no load accepts it |
| MemoryFull.FillNext | internal/adapter/memory/records.go:106-141 | Each of them takes lock, load and save, stores one more note and adds its exact length |
| MemoryEncoding.SortedLength | internal/adapter/memory/records.go:556-564 | The length of the encoded records does not depend on their order |
| MemoryEncoding.RecordLengthMeans | internal/adapter/memory/records.go:36-47 | The length of an encoded record: its braces, keys and quotes and its fields, the optional ones only where they are set |
| MemoryEncoding.EncodedMeans | internal/adapter/memory/records.go:91-96 | The length of the whole file: its frame, generation, digest, records and the commas between them |
| MemoryEncoding.EscapedLengthMeans | internal/adapter/memory/records.go:561-564 | The length of a text as JSON writes it, escapes for HTML and line separators included |
| MemoryEncoding.FractionDigitsMeans | internal/adapter/memory/records.go:36-47 | A time is printed with the digits its fraction needs and no trailing zero |
| MemoryEncoding.EscapedBounds | internal/adapter/memory/records.go:561-564 | Escaping never shortens a text and makes it at most six times as long |
| MemoryStore.Store.Remember | internal/adapter/memory/records.go:106-141 | Returns the existing record of that content without a save, else adds one record of that content dated now, under the next generation with every other record kept |
| MemoryStore.Store.Update | internal/adapter/memory/records.go:182-236 | The first visible record of the ID gets the new text, the category and expiry given and the time of the update, and keeps ID, scope, source and creation, under the next generation with every other record kept; a content another record has, and an unknown ID, are refused and save nothing |
| MemoryStore.Store.Forget | internal/adapter/memory/records.go:238-269 | The first visible record of that ID is removed and every other kept, under the next generation, or nothing changes |
| MemoryStore.RecordsFile.Save | internal/adapter/memory/records.go:565-597 | Writes exactly when the encoding is within the limit and the replacement renames |
| MemoryRecords.MutateKeepsValid | internal/adapter/memory/records.go:606-648 | Each mutation keeps a valid file valid and raises its generation by one |
| MemoryRecords.MutateAnswers | internal/adapter/memory/records.go:106-269 | Every reply and what it saves, record by record |
| MemoryRecords.UpdateNeedsAdvancingClock | internal/adapter/memory/records.go:221-222 | An update writes a file that loads exactly when the clock is not behind the record's creation |
| MemoryRecords.RememberNeedsFreshId | internal/adapter/memory/records.go:660-667 | A Remember writes a file that loads exactly when the derived ID is new |
| MemoryRecords.RememberTwice | internal/adapter/memory/records.go:125-129 | Repeating a Remember changes nothing and returns the first record, for any later clock, process or ID |
| MemoryRecords.OthersUntouched | internal/adapter/memory/records.go:815-828 | Update and Forget leave every record outside the bound scopes and every other record as it is |
| MemoryRecords.VisibleExactlyWhen | internal/adapter/memory/records.go:815-828 | A Store sees user records and those of the workspace and repository it is bound to |
| MemoryRecords.AcceptableExactlyWhen | internal/adapter/memory/records.go:436-528 | The bounds on text, source and scope ID |
| MemoryRecords.ValidFileExactlyWhen | internal/adapter/memory/records.go:606-648 | What a file must satisfy to load |
| MemorySearch.SearchIsCanonical | internal/adapter/memory/records.go:276-380 | A search does not depend on the order of the stored records |
| MemorySearch.BeforeIsStrictTotal | internal/adapter/memory/records.go:345-360 | On a valid file the comparator is a strict total order |
| MemorySearch.RankingIsSorted | internal/adapter/memory/records.go:324-360 | The ranking is sorted and lists exactly the unexpired, visible records asked for |
| MemorySearch.UnpinnedOrder | internal/adapter/memory/records.go:345-360 | Of two unpinned records in the ranking workspace comes before repository before user, then the better match, the later update and the smaller ID |
| MemorySearch.PinnedOrder | internal/adapter/memory/records.go:345-353 | Without repeated pins pinned records stand before the others, in the order of the pins |
| MemorySearch.ListedExactlyWhen | internal/adapter/memory/records.go:324-344 | A record is ranked exactly when unexpired, of the scope and category asked for, and the user's or of the query's workspace or repository |
| MemorySearch.PickWithinBudgets | internal/adapter/memory/records.go:361-379 | The result is a subsequence of the ranking within the count and the rendered bytes |
| MemorySearch.PickPrefix | internal/adapter/memory/records.go:364-379 | Each candidate is taken exactly when it fits what the earlier ones left |
| MemorySearch.FitsExactlyWhen | internal/adapter/memory/records.go:361-379 | A candidate fits exactly when there is room for one more record and for its line with the line break |
| MemorySearch.RenderedLine | internal/adapter/memory/records.go:735-743 | A record is one line with its ID, scope, category and text |
| MemorySearch.SelectRecords | internal/adapter/memory/records.go:361-380 | The loop computes that selection and reports truncation exactly when a candidate is omitted |
| MemorySearch.SearchRecords | internal/adapter/memory/records.go:276-380 | Filter, ranking and selection together, with the number of candidates and whether any was omitted |
| MemorySearch.CollectCandidates | internal/adapter/memory/records.go:312-344 | The candidates with their ranks, in file order |
| MemorySearch.PinnedPrecedesExactlyWhen | internal/adapter/memory/records.go:312-339 | The comparator puts a pinned record before an unpinned one exactly when its last position is at most the number of distinct pins, or one more and it would come first without any pins |
| MemorySearch.DistinctPinsComeFirst | internal/adapter/memory/records.go:336-339 | Without repeated pins every pinned record comes first, in pin order |
| MemorySearch.RepeatedPinsDemote | internal/adapter/memory/records.go:312-339 | With repeated pins an unpinned record can come first |
| PromptBlock.SelectBlock | internal/adapter/memory/records.go:401-434 | For trimmed texts and a header without a record prefix: the block of the longest prefix that fits, within the limit, naming exactly its records |
| PromptBlock.ReachableIsPlain | internal/adapter/memory/records.go:509-528 | In every store the processes can reach the texts are trimmed, so that the block only asks for a header in which no record seems to start |
| PromptBlock.ComposeBlock | internal/adapter/memory/records.go:393-434 | Search and block together, truncated exactly when a candidate is not in the block |
| PromptBlock.AcceptedExactlyWhenWhole | internal/adapter/memory/records.go:412-421 | The acceptance test of a block holds exactly when nothing was cut off |
| PromptBlock.SelectedBlockIntegrity | internal/adapter/memory/records.go:745-769 | The payload unescapes to the rendered records and the closing tag stands only at the end |
| PromptBlock.LongerTextDoesNotOccur | internal/adapter/memory/records.go:415-417 | No text longer than the payload that begins like a record occurs in a block |
| PromptBlock.EscapeIsOnePass | internal/adapter/memory/records.go:771-775 | The three replacements are one pass: no replacement is escaped again |
| PromptBlock.EscapeMeans | internal/adapter/memory/records.go:771-775 | The three tag characters become entities, wherever they stand, and no other character changes |
| PromptBlock.EscapeInjective | internal/adapter/memory/records.go:771-775 | Escaping is injective, undone by unescaping and leaves no tag character |
| PromptBlock.BlockWithinLimit | internal/adapter/memory/records.go:745-769 | No block exceeds its limit |
| PromptBlock.BlockLayout | internal/adapter/memory/records.go:745-769 | The opening and closing tags around a payload |
| PromptBlock.PrefixFitsExactlyWhen | internal/adapter/memory/records.go:407-421 | A prefix fits exactly when its whole block is within the requested limit, or 102400 bytes if none is requested or more |
| PromptBlock.TrimSpaceMeans | internal/adapter/memory/records.go:745-752 | Trimming takes white space off both ends and no more |
| PromptBlock.AsSystemBlockBounded | internal/adapter/memory/records.go:745-769 | The bounded block: limit clamped, payload cut at a character boundary, empty when nothing fits |
| PromptBlock.BoundaryIsNearest | internal/adapter/memory/store.go:169-180 | The boundary is a character start and only continuation bytes are skipped |
| PromptBlock.PreviousUTF8Boundary | internal/adapter/memory/store.go:169-180 | The loop finds that boundary, clamped to the text |
| Breaker.StepKeepsInvariant | internal/adapter/mcp/health.go:112-205 | Healthy means no failures, Degraded fewer than the threshold, Open and HalfOpen at least the threshold with a retry time, and a half-open breaker has a probe in flight, under any interleaving of calls, probes, failures of the transport itself, rediscovery and trips |
| Breaker.RunKeepsInvariant | internal/adapter/mcp/health.go:112-205 | So over every run |
| Breaker.EventMeans | internal/adapter/mcp/health.go:108-205 | What each event makes of state, failures and retry time, and of the calls and probes in flight |
| Breaker.EnabledExactlyWhen | internal/adapter/mcp/connection.go:493-522 | Only probes and calls in flight end; failures of the transport, rediscovery and trips come at any time |
| Breaker.StateFollowsStreak | internal/adapter/mcp/health.go:112-131 | Under success and failure reports alone state and count are a function of the failures since the last success |
| Breaker.Admission | internal/adapter/mcp/connection.go:493-522 | A call is admitted only while Healthy or Degraded or by its own working probe, and every probe that ends decides the half-open state |
| Breaker.ProbesAreSpaced | internal/adapter/mcp/health.go:173-190 | Two probes with no success between them begin at least a cooldown apart |
| Breaker.LateSuccessHeals | internal/adapter/mcp/connection.go:507-514 | A call in flight that succeeds heals the breaker whatever failures, trips and probes any run put in between |
| Breaker.RecoversExactlyWhen | internal/adapter/mcp/health.go:108-151 | An event makes a tripped breaker admit calls again exactly when it reports a success |
| Breaker.HealthTracker.Admit | internal/adapter/mcp/health.go:153-193 | The verdict and transition of the first section |
| Breaker.HealthTracker.FinishProbe | internal/adapter/mcp/health.go:194-205 | A failed probe opens, a working one heals and admits |
| Breaker.HealthTracker.ReportFailure | internal/adapter/mcp/health.go:116-131 | One more failure, open from the threshold on, cancellations ignored |
| Breaker.HealthTracker.ReportOpen | internal/adapter/mcp/health.go:133-151 | Opens with at least the threshold of failures |
| Breaker.HealthTracker.TransitionLocked | internal/adapter/mcp/health.go:222-243 | The snapshot changes, and is dated, exactly when a field differs |
| Pool.Pool.Reload | internal/adapter/mcp/pool.go:98-184 | Rebuilds the enabled servers, keeps open exactly the connections it holds, publishes their sorted lists, resolves collisions; returns without a change exactly when the configuration is invalid or already loaded with nothing invalidated and no unconnected server's retry time reached |
| Pool.ReloadMeans | internal/adapter/mcp/pool.go:124-180 | Every enabled server after a reload: kept with connection, offer and breaker, or connected anew with what was found, or without a connection and with an open breaker; flagged exactly when in conflict, its breaker tripped for a new conflict and healed for one that is gone |
| Pool.RetryDueExactlyWhen | internal/adapter/mcp/pool.go:415-427 | A retry is due for an unconnected server without a retry time or whose time has come |
| Pool.KeptExactlyWhenUnchanged | internal/adapter/mcp/pool.go:135-139 | A connected server keeps its connection exactly when still enabled under the same hash and nothing was invalidated |
| Pool.Pool.ReloadServer | internal/adapter/mcp/pool.go:340-381 | Replaces one connection and closes the old one, or trips the breaker and keeps it |
| Pool.Pool.RemoveServerPrefix | internal/adapter/mcp/pool.go:598-635 | Drops and closes exactly the servers of the prefix |
| Pool.Pool.ShutdownAll | internal/adapter/mcp/pool.go:730-769 | Every connection ever opened is closed, once |
| Pool.Pool.Publish | internal/adapter/mcp/pool.go:158-183 | Resolution, publication and closing keep opened-and-not-closed equal to held |
| Pool.SwapConserves | internal/adapter/mcp/pool.go:162-182 | Closing what the new map does not hold conserves connections |
| Pool.Aggregate | internal/adapter/mcp/pool.go:463-507 | A published list is sorted and is the union of what the connected servers offer, with multiplicity |
| Pool.SortedOrder | internal/adapter/mcp/pool.go:487-507 | Tools are published by name, everything else by server and name |
| Pool.Show | internal/adapter/mcp/pool.go:463-507 | All four lists and the connection index of one server map |
| Pool.UnflaggedAreDistinct | internal/adapter/mcp/pool.go:429-461 | After resolution the tool names of servers without conflict are pairwise distinct, within a server and across |
| Pool.ConflictHasReason | internal/adapter/mcp/pool.go:429-449 | A server is in conflict only over a tool it repeats or an earlier server offers |
| Pool.ResolveCollisions | internal/adapter/mcp/pool.go:429-461 | The loops flag exactly the servers in conflict, trip newly flagged ones and heal released ones |
| Pool.SortedIdsUnique | internal/adapter/mcp/pool.go:430-434 | The sorted names, and so the outcome, do not depend on map order |
| Pool.CatalogUniqueExactlyWhen | internal/adapter/mcp/pool.go:509-522 | No tool name stands twice in the visible catalog exactly when every flagged server that is visible shares no tool with another visible one and repeats none |
| Pool.CatalogHasNoDuplicates | internal/adapter/mcp/pool.go:509-522 | So no tool name stands twice while the breakers of flagged servers stay open |
| Pool.VisibleExactlyWhen | internal/adapter/mcp/pool.go:569-580 | A server's lists are shown exactly while its breaker is healthy or degraded |
| Pool.HealedCollisionShowsTwice | internal/adapter/mcp/pool.go:569-580 | An event of a tripped flagged server makes it listed beside its visible rival exactly when it reports a success |
| Pool.LateSuccessShowsTwice | internal/adapter/mcp/pool.go:429-461 | A call admitted before a reload brings a rival ends well after the collision was found: the server is flagged and the catalog lists the tool twice |
| Pool.Pool.Catalog | internal/adapter/mcp/pool.go:509-522 | The published tools of the visible servers |
| Pool.Pool.ReportHealth | internal/adapter/mcp/health.go:108-151 | Reports of calls, probes and transports between operations move only that server's breaker |
| Prewarm.RunsLoseNoRefresh | internal/adapter/mcp/prewarm.go:97-107 | In every interleaving a request that no refresh has swapped yet left the flag dirty and, once returned, a token queued or the worker about to swap |
| Prewarm.NextSwapServesAll | internal/adapter/mcp/prewarm.go:187-190 | The next swap serves every request outstanding |
| Prewarm.StrandedExactlyWhen | internal/adapter/mcp/prewarm.go:166-217 | A dirty flag comes to have nothing to serve it exactly when a refresh fails, or a change of the blocked prefixes marks it, while no request, token or refresh is coming; only a request or a synchronous refresh helps then |
| Prewarm.StrandedServesRequests | internal/adapter/mcp/prewarm.go:97-107 | Such a flag leaves no completed request unserved |
| Prewarm.FailedRefreshStrands | internal/adapter/mcp/prewarm.go:197-202 | One refresh whose configuration does not load strands the flag |
| Prewarm.ReloadExpelsExactlyWhen | internal/adapter/mcp/prewarm.go:203-217 | A reload leaves no blocked prefix in the pool exactly when the copy it works from has every configured one blocked by then |
| Prewarm.BlockedLeaveExactlyWhen | internal/adapter/mcp/prewarm.go:166-217 | In every reachable state no blocked prefix is in the pool exactly when each configured one is expelled: the last successful reload worked from a copy taken while it was blocked, or it was removed after that reload |
| Prewarm.OutExactlyWhen | internal/adapter/mcp/prewarm.go:42-67 | Over any run a configured prefix is out of the pool exactly when it is expelled in that sense |
| Prewarm.ChangeMeans | internal/adapter/mcp/prewarm.go:42-57 | Blocking and unblocking take effect at once and each leave one dirty mark to come |
| Prewarm.BlockedPrefixesLeave | internal/adapter/mcp/prewarm.go:203-217 | With one refresh at a time, once nothing is dirty or in flight no blocked prefix is in the pool |
| Prewarm.OverlappingRefreshRevives | internal/adapter/mcp/prewarm.go:203-217 | With two refreshes in flight the older copy can be reloaded last and a disabled prefix stays in the pool with nothing left to remove it |
| Prewarm.Flags.SwapDirty | internal/adapter/mcp/prewarm.go:187-190 | A refresh works exactly when the flag was set, and clears it |
| Prewarm.Flags.TryWake | internal/adapter/mcp/prewarm.go:154-163 | The send on the one-slot channel never blocks |
| HttpSession.HTTPTransport.Request | internal/adapter/mcp/http.go:163-230 | Under any answers and reconnections: a business request is posted once, and once more only when an unknown mode falls back to the legacy transport, and fails after a stale answer; any other is sent again exactly when its first answer was stale and the reconnection worked, and is then answered by that; later calls never post it again; an answer settles the mode for good |
| HttpSession.SendsMeans | internal/adapter/mcp/http.go:163-230 | Reply and number of POSTs for every mode, method, answer and reconnection, case by case |
| HttpSession.AdvancesExactlyWhen | internal/adapter/mcp/http.go:232-259 | An attempt advances the generation it observed unless a legacy stream does not reopen |
| HttpSession.SessionMeans | internal/adapter/mcp/http.go:282-305 | A send keeps the session a streamable answer names, and otherwise the one it had |
| HttpSession.HTTPTransport.RequestOnce | internal/adapter/mcp/http.go:282-305 | One POST, two when an unknown mode falls back to the legacy transport |
| HttpSession.HTTPTransport.Reconnect | internal/adapter/mcp/http.go:415-465 | Advances the generation only for an observer of the current one, posts only its own fresh messages, and succeeds exactly when nothing is to do or both are answered |
| HttpSession.HTTPTransport.ReconnectInitial | internal/adapter/mcp/http.go:232-259 | The same without a new initialization |
| HttpSession.OneAdvancePerGeneration | internal/adapter/mcp/http.go:415-441 | However many callers saw a generation go stale it is advanced at most once |
| Sse.Decode | internal/adapter/provider/sse.go:33-87 | Reading a whole stream gives its interpretation and fails exactly when a line or an event exceeds its limit |
| Sse.SSEDecoder.Read | internal/adapter/provider/sse.go:33-72 | Each call gives the next record, the end, or a failure exactly where a limit is exceeded |
| Sse.SSEDecoder.Take | internal/adapter/provider/sse.go:73-87 | Flushing yields the joined data and resets the partial event |
| Sse.LineMeans | internal/adapter/provider/sse.go:37-62 | What each kind of line does to the event being assembled: blank, comment, the three fields that count with and without a colon, and any other |
| Sse.ScanSSE | internal/adapter/mcp/http.go:925-989 | Fails exactly when a limit is exceeded, else dispatches the interpretation's events; never an event of another text |
| Sse.SameEvents | internal/adapter/mcp/http.go:925-989 | Where neither parser hits a limit they yield the same events |
| Sse.PrintThenInterpret | internal/adapter/provider/sse.go:37-62 | Parsing a printed list gives it back less at most two carriage returns at the end of names and data lines |
| Sse.RoundTrip | internal/adapter/provider/sse.go:37-87 | That is the identity exactly when no name and no data line ends in a carriage return |
| Sse.StrippedExactlyWhen | internal/adapter/provider/sse.go:38-50 | One event survives exactly when nothing in it ends in a carriage return |
| SkillPages.ReadAll | internal/adapter/skill/adapter.go:189-214 | For valid UTF-8 following the cursors returns the whole text in non-empty pages within the page size |
| SkillPages.RunRead | internal/adapter/skill/adapter.go:201-214 | The page of a cursor, refused when stale, out of range or off a boundary |
| SkillPages.ReadPageMeans | internal/adapter/skill/adapter.go:189-214 | A cursor of the code is refused exactly when its offset is past the end or within a character; its page is the text from there within 32768 bytes and names the next one unless it is the last |
| SkillPages.PageProgress | internal/adapter/skill/adapter.go:207-210 | Every page advances, is within the size and ends between characters |
| SkillPages.NoProgressExactlyWhen | internal/adapter/skill/adapter.go:207-210 | A page stays in place exactly when no boundary lies within its size, which only invalid text allows |
| SkillPages.CursorRoundTrip | internal/adapter/skill/adapter.go:272-294 | A cursor gives back its offset under its own digest and is refused under any other |
| SkillPages.CursorsDiffer | internal/adapter/skill/adapter.go:272-294 | Different offsets have different cursors |
| SkillPages.DecodesExactlyWhen | internal/adapter/skill/adapter.go:277-294 | A text decodes to an offset exactly when it is an optional sign, leading zeros and the offset before the digest, and the offset fits an int |
| SkillPages.EncodedExactlyWhen | internal/adapter/skill/adapter.go:272-275 | Of these the code writes only the one without sign and leading zeros |
| SkillPages.BoundaryNearby | internal/adapter/skill/adapter.go:305-308 | Among four consecutive positions of valid text one is a boundary |
| SkillPages.ListAll | internal/adapter/skill/adapter.go:155-173 | Following the cursors lists every skill once, in order, twenty a page |
| SkillPages.ListPageMeans | internal/adapter/skill/adapter.go:155-173 | A page of the list has the next twenty skills, or those left |
| SkillDiscovery.WalkWithinLimits | internal/adapter/skill/discovery.go:160-196 | Over any tree the walk stays within both shared budgets and only appends |
| SkillDiscovery.WalkIsComplete | internal/adapter/skill/discovery.go:160-270 | If no limit was hit every SKILL.md within the depth, outside links and unreadable directories, is a candidate in order or an issue |
| SkillDiscovery.WalkStopsExactlyWhen | internal/adapter/skill/discovery.go:160-196 | What stops a walk at a directory, and with which issue |
| SkillDiscovery.EntryMeans | internal/adapter/skill/discovery.go:196-270 | What each kind of entry adds to candidates, issues and counters |
| SkillDiscovery.Walker.WalkDirectory | internal/adapter/skill/discovery.go:159-272 | The recursive walk with its counters computes the specification and terminates |
| SkillDiscovery.Discover | internal/adapter/skill/discovery.go:95-134 | Across roots: budgets kept; it fails exactly at the first configured root that is refused or whose own walk has an issue, before any root uses up the candidates; the result keeps the first candidate of each name, over all files when no limit was hit |
| SkillDiscovery.NamesUnique | internal/adapter/skill/discovery.go:119-125 | The names left are unique |
| SkillDiscovery.EarliestKept | internal/adapter/skill/discovery.go:119-125 | The earliest candidate of a name is kept |
| SkillDiscovery.KeptIsEarliest | internal/adapter/skill/discovery.go:119-125 | Every candidate kept is the earliest of its name |
| SkillDiscovery.NamesKept | internal/adapter/skill/discovery.go:119-125 | No name is lost |
| Ordering.SortUnique | internal/adapter/memory/records.go:345-360 | Under a strict total order a sorted arrangement is unique, so an unstable sort is deterministic |
| Ordering.SortPermutation | internal/adapter/memory/records.go:345-360 | Sorting does not depend on the order of its input |
| Ordering.LessExactlyWhen | internal/host/workspace_manager.go:346-348 | Texts are ordered by their first differing byte, a text before its continuations |

## Left out

- Lifecycle.ReachableStates: covers runs in which no change commits after Close has drained, because the property is false of the others; Lifecycle.CommitConservesExactlyBeforeDrain says so exactly.
- Prewarm.BlockedPrefixesLeave: covers runs in which no refresh begins while another is in flight, because the property is false of others (Prewarm.OverlappingRefreshRevives); Prewarm.BlockedLeaveExactlyWhen covers them all.
- PromptBlock.SelectBlock: asks for trimmed record texts, which every reachable store has (PromptBlock.ReachableIsPlain), and a header in which no record prefix occurs; for another header the acceptance test of the code compares different things.
- MemoryEncoding.Encoded: takes sources and scope IDs to be valid UTF-8, whose invalid bytes the encoder would replace, and expiry times to be in UTC.
- Pool.CatalogHasNoDuplicates: holds while flagged servers' breakers stay open; nothing keeps them open (Pool.LateSuccessShowsTwice).
- The error texts in the breaker snapshots of the pool.
- Refinement.ReplaceAsRun: relates the transaction to a run without other steps in between, which Lifecycle.ChangeIsIsolated justifies for everything but the drain of Close; it says nothing of the selection, the file and the keys, which the interleaved machine does not have.
- Boot activation, RegisterInitial, workspace listing, session profile repair and the check that a Session still uses a model, which is a parameter.
- Decoding a stored selection and its registered models, and validation of setup requests, base URLs, model metadata and identities; the model starts from resolved connections.
- The routing table after Close: the code leaves it, and so does the model.
- Roots whose identity cannot be computed; the others are identified with their workspace.
- How memory texts are normalised, their UTF-8 validity, credential detection and the tokenizer: scores are inputs to a search, and Unicode white space beyond ASCII is not trimmed.
- JSON, base64 and Go's quoting: codecs are taken to be inverse pairs, and the quoted source of a prompt block is an input.
- Wrap-around of 64-bit counters such as the memory generation.
- The observers of health changes and the order in which they are told.
- What a failed connection attempt opens and closes again before connectServer returns; a pool connection counts as opened when it is returned.
- Failures of the hash of one server after the hash of the whole configuration succeeded.
- Partial effects of a Reload that fails within a refresh, and the timers that request a refresh when a breaker's retry is due.
- The consumer of scanSSE accepts every event; stopping early is not modelled.
- The legacy SSE stream, OAuth, stdio processes, timeouts and cancellation: each call's outcome is arbitrary instead.
- Unreadable manifests and their rules: a SKILL.md with its manifest is a skill or an issue.
- Rendering of loaded skills and bounded descriptions.
- Session persistence, the web handlers, the shell and the user interface.
