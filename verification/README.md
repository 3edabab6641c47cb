# Source2Root: verified models

This project models the stateful parts of Source2Root, a plugin platform for a game server, and proves
what they keep over whole runs. `dafny verify dfyconfig.toml` checks everything.

| files | what they model |
|---|---|
| `Preferences*.dfy`, `WorkQueue.dfy` | the client preferences service: an asynchronous write-back cache over a database, and the job queue under it |
| `DependencyGraph.dfy`, `Plugin*.dfy` | the plugin lifecycle: dependency checks, load, unload, reload, pause, resume, retry, unloading everything, discovery |
| `NameTable.dfy`, `ServiceLeases.dfy`, `CallbackTokens.dfy`, `Menu*.dfy`, `ScriptResources.dfy` | the registries scripts share: commands, events, console variables, service leases, callback tokens, menus; and the staged clean-up |
| `Voice*.dfy` | the voice layer: several owners mute senders over the engine's own wishes |
| `Snapshot*.dfy` | the compatibility snapshot store on disk |
| `Hook*.dfy` | the native hook service and its lifetimes |
| `HandleTable.dfy` | the generational handle table |
| `KeyValues*.dfy`, `Migration.dfy` | the configuration parser and the migration tool's printer |
| `Decimals.dfy`, `Timestamps.dfy`, `Bans.dfy`, `BanStore.dfy` | ban timestamps, ban entries and the ban store |

## How the models are built

The preferences service and the plugin table are state machines: a datatype `State`, a function for every
operation, an `Event` for every way the world can move, and lemmas about `Run` over any list of events. What
the host, the worker or a script does is part of the event, so a statement about all events is a statement
about all their behaviours. Beside each machine stands a class with the fields of the original whose methods
are proved equal to the functions and keep the invariant.

The voice layer, registries, menus, snapshot store, hook service and ban store are classes from the start. Their
hosts are classes too, whose methods choose nondeterministically whether a call succeeds, fails without effect
or fails after taking effect; a contract of the layer above holds for every choice. They count what they refuse or break,
so that a contract can say that a call with no such answer succeeds. Re-entry is explicit: a host
call or callback takes a list of acts that happen inside it, each with acts inside it again, and the invariant is
proved for every such tree (`MenuSessions.Board.Perform`, `HookService.Service.Perform`).

Assumptions about the world, each visible in a host class or an event:

- The preferences database runs one transaction at a time; a failing save may have written any part of its batch,
  and is over when its completion is dispatched. Other servers only add cookies to the catalogue. The queue has
  one worker, whose completions come in submission order (`WorkQueue.OneWorkerKeepsOrder`).
- A manifest names its own directory and never itself as a dependency, as reading a manifest insists. A script
  retires when its third callback fails, at whatever moment that is.
- A connection number is never used again. A host that reports a player absent tells the truth, and a new link
  is heard as the engine wishes until somebody asks otherwise. Looking a player up moves nobody; every other
  call of the voice layer to its host may see players come and go.
- A refused registration, removal, acquisition or release has changed nothing in the host; a voice write that
  fails may have taken effect.
- A menu that could not be drawn or cleared is on the screen as before; a new map and a new connection begin with empty
  screens. Between callbacks nobody comes or goes inside a call that concerns menus, and keys come from connected players.
- A file rename is atomic and operations reach the disk in order; any of them may fail or be the last before
  the machine stops. Different manifests have different digests. JSON text reads back to what was written.
- A hook host enters a callback it is still installing at most once, and answers when that entry is over; before the
  entry anything may happen. A lease is lent when the host answers that it is, and given back when it answers that.

## Where the code and a promise part

- Pumping alone does not store an account whose last save failed: it waits for a call to retry, or for the next write to it
  (`PreferencesLiveness.PumpsSufficeExactly`). With one such call everything is stored (`PreferencesLiveness.EverythingIsStored`).
- `Voice::Suspend`, called a second time after a script muted somebody in between, returns true with the pairs
  of that sender still tracked and silenced (`VoiceLayer.Voice.SuspendMuteSuspend`): it leaves no pair exactly when no
  tracked sender is muted at that time (`VoiceLayer.Voice.Suspend`). `Resume` then replaces those mutes by the parked ones.
- A first suspension that fails has given links back already. It enforces the mutes again, but if that fails too a
  muted sender may be heard (`VoiceModel.TwiceFailedSuspension`). Every other call, and a failed suspension that enforces again, keeps silenced links
  silenced (`VoiceLayer.Voice.Serve`).
- `UnloadAllScripts` may leave a plugin loaded that it never tried and that nothing needs any more: when only a pending
  replacement needs it, its turn comes first, and the clean-up of the other plugin ends with the replacement gone and
  the current script still there. If nothing else needs either plugin, it stays exactly when the first pass unloads
  nothing, since any progress brings another pass (`PluginSweep.RiskyMayStrand`); a failed reload leads to such a table
  (`PluginRuns.PendingIsReached`). Without such a replacement it cannot happen (`PluginSweep.UnloadAllStrandsNobody`). With
  several of them, who is left depends on the pass in which each is tried, which only the sweep itself computes; what
  is left can always be traced to a failed clean-up (`PluginSweep.UnloadAllIsOrderly`).
- `Service::Collect` of the hook service asks the host to take a target back and drops it when the host agrees. If the
  host opens the same target inside that call, the new Target object refers to a target neither kept nor lent
  (`HookLifetimes.ReopeningLosesTarget`). `HookService.Service.Release` says exactly when: no act that opens no such lease
  can bring it about, and an open of it does, unless every use of it has gone again before the answer
  (`HookLifetimes.ReopeningInVain`), so that an open alone is not the condition.
- The limit of 64 targets is checked before the host resolves the target, so opens inside a resolution may pass it
  (`HookLifetimes.NestedOpensPassTheLimit`); without them it is kept (`HookService.Service.Serve`).
- A completed release directory whose index entry was never written blocks every other manifest of its sequence
  until the same manifest is staged again (`SnapshotStore.OrphanDecides`).
- The migration printer escapes only quotes and backslashes. A name with a control character, which the parser can
  produce from an escape, does not survive printing and reading (`KeyValuesPrinter.ReprintExactly`); the migration
  tool's own checks exclude such names (`Migration.GroupText`).
- The job queue keeps the order of submission exactly with one worker or room for one job
  (`WorkQueue.OrderIsKeptExactly`); the preferences service asks for one worker.

## Model

| member | source | states |
|---|---|---|
| `PreferencesRuns.RunKeepsInv` | extensions/clientprefs/service.cpp:35-460 | Every interleaving of calls, worker steps, completions and foreign catalogue insertions keeps the whole invariant: cache, dirty set, queued jobs, store and catalogue agree account by account |
| `PreferencesRuns.StepKeepsInv` | extensions/clientprefs/service.cpp:95-460 | One event of any kind keeps that invariant, whatever the store does with a failing save |
| `PreferencesRuns.CacheCoherence` | extensions/clientprefs/service.cpp:294-413 | After any run a Ready account shows, for every cookie, the store overlaid with its unsaved writes: no late load hides a newer edit and no save completion drops one |
| `PreferencesRuns.NoAcceptedWriteIsLost` | extensions/clientprefs/service.cpp:266-413 | After any run the last accepted value of every account and cookie is in the dirty set or in the store, across overlapping and failed saves, retries, eviction and re-creation of the account |
| `PreferencesRuns.GetReturnsTheLastAcceptedValue` | extensions/clientprefs/service.cpp:241-250 | After any run a successful read of a cookie that was ever written returns the last accepted value |
| `PreferencesRuns.StoppingLosesNothing` | extensions/clientprefs/service.cpp:436-460 | When the service says it can stop, the store holds every accepted value of every account |
| `PreferencesRuns.PersistedMeansStored` | extensions/clientprefs/service.cpp:306-335 | The two durability queries are true only if the store holds every accepted value they cover |
| `PreferencesRuns.CatalogueAgreement` | extensions/clientprefs/service.cpp:35-76 | Every cookie in the table is loading or ready, and a ready one equals the definition in the store, even when other servers register cookies |
| `PreferencesRuns.SavesAreNeverRefused` | extensions/clientprefs/store.cpp:154-180 | No queued save can meet the refusals "unregistered cookie" or "exceeds 256 values", in any reachable state |
| `PreferencesRuns.CompletionsFindTheirAccount` | extensions/clientprefs/service.cpp:337-413 | A queued load or save always completes on the very account object that submitted it: eviction never orphans a job |
| `PreferencesProgress.WorkIsQueued` | extensions/clientprefs/service.cpp:337-447 | After any run nothing waits without a job: unsaved writes have their save in the queue unless the queue is full or the last save failed and nobody retried; whatever is loading, registering or listing has its job in the queue |
| `PreferencesProgress.StepUnderWay` | extensions/clientprefs/service.cpp:95-460 | Every event of every kind keeps that |
| `PreferencesLiveness.EverythingIsStored` | extensions/clientprefs/service.cpp:385-460 | From every reachable state at most 772 fault-free worker steps, pumps and one call to retry bring the service to a point where every accepted value is stored, every account is clean and it says it can stop |
| `PreferencesLiveness.PumpsSufficeExactly` | extensions/clientprefs/service.cpp:385-447 | Worker steps and pumps alone do so if and only if, after the first round, no account with unsaved writes carries the mark of a failed save |
| `PreferencesCalls.FlushFinishes` | extensions/clientprefs/service.cpp:337-367 | After the worker has caught up and a pump has run nothing is loading any more, every cookie in the table is ready, and the catalogue is settled |
| `PreferencesCalls.SyncConnects` | extensions/clientprefs/service.cpp:178-211 | A snapshot is taken exactly when it is good and its accounts fit; then exactly its players are connected, each with a cached account; a refused one changes nothing |
| `PreferencesCalls.EvictsExactly` | extensions/clientprefs/service.cpp:424-434 | Eviction keeps exactly the accounts that are connected, busy or dirty, as they are |
| `PreferencesCalls.SetThenGet` | extensions/clientprefs/service.cpp:241-304 | A write is accepted exactly when it may be, changes one value of one account, is queued to be saved if there is room, and is what is read next; no other cookie is read differently |
| `PreferencesCalls.UserSetIsPublic` | extensions/clientprefs/service.cpp:322-330 | Players write public cookies only, and as any caller does |
| `PreferencesCalls.GetShowsTheStore` | extensions/clientprefs/service.cpp:241-250 | A read succeeds exactly for a ready cookie of a connected player with a loaded account, and shows the store under the unsaved writes |
| `PreferencesCalls.SetIdentityWrites` | extensions/clientprefs/service.cpp:266-304 | An offline write is accepted exactly when it may be and an account has a place; its load and its save are queued; nobody who needs an account loses it |
| `PreferencesCalls.RefreshLoads` | extensions/clientprefs/service.cpp:376-383 | A refresh is refused exactly for an unknown, busy or dirty account, and otherwise queues a load |
| `PreferencesCalls.RetryLoadLoads` | extensions/clientprefs/service.cpp:369-374 | Exactly a failed load is tried again |
| `PreferencesCalls.RegisterDoes` | extensions/clientprefs/service.cpp:122-159 | A registration is taken exactly when it may be; its cookie is ready or has its job in the queue; the other cookies stay |
| `PreferencesCalls.CompletionSettles` | extensions/clientprefs/service.cpp:337-413 | A finished load or save does to its account, and to no other, what it should: the snapshot under the unsaved writes, or the writes saved in their newest revision clean, or the mark of the failure |
| `PreferencesCalls.RegistrationSettles` | extensions/clientprefs/service.cpp:138-150 | A finished registration makes its cookie ready, a failed one takes it out of the table |
| `PreferencesCalls.CatalogMerges` | extensions/clientprefs/service.cpp:35-76 | The listed catalogue is in the table afterwards, or the table is full and says so; other cookies stay |
| `PreferencesCalls.WorkSucceeds` | extensions/clientprefs/store.cpp:80-199 | Without a fault the worker loads all rows of the account, writes the whole batch and nothing else, and lists the whole catalogue |
| `PreferencesCalls.StoreRegisters` | extensions/clientprefs/store.cpp:94-124 | The store takes a definition exactly when it is sound, does not contradict it and fits; other definitions stay |
| `PreferencesSteps.LoadKeepsCore` | extensions/clientprefs/service.cpp:337-367 | Starting a load keeps the account invariant, also when the queue is full |
| `PreferencesSteps.SaveKeepsCore` | extensions/clientprefs/service.cpp:385-413 | Starting a save keeps the account invariant and the order of the batch behind earlier jobs; that it is started is `PreferencesCalls.SaveDoes` |
| `PreferencesCalls.SaveDoes` | extensions/clientprefs/service.cpp:385-413 | A save of all unsaved writes is queued, unless one is under way or failed, nothing is unsaved, or there is no room |
| `PreferencesSteps.EvictKeepsInv` | extensions/clientprefs/service.cpp:424-434 | Eviction drops only accounts whose every accepted value is stored and that no job mentions |
| `PreferencesModel.ValidAccountBits` | extensions/clientprefs/store.cpp:33-38 | The bit test on an account number accepts exactly an interval of numbers |
| `PreferencesService.Service.Register` | extensions/clientprefs/service.cpp:122-159 | The imperative registration is the step of the model and keeps the invariant, on every refusal too |
| `PreferencesService.Service.Sync` | extensions/clientprefs/service.cpp:178-211 | Taking a new snapshot of connections is the step of the model: one bad or repeated entry refuses the whole snapshot |
| `PreferencesService.Service.Set` | extensions/clientprefs/service.cpp:252-264 | A write by a connected player is the step of the model |
| `PreferencesService.Service.SetIdentity` | extensions/clientprefs/service.cpp:266-292 | A write to an offline account, creating it after eviction when needed, is the step of the model |
| `PreferencesService.Service.UserSet` | extensions/clientprefs/service.cpp:322-330 | A player edits only public cookies; otherwise nothing changes |
| `PreferencesService.Service.Get` | extensions/clientprefs/service.cpp:241-250 | What is read is the last accepted value, if there ever was one |
| `PreferencesService.Service.Refresh` | extensions/clientprefs/service.cpp:376-383 | A refresh is refused while anything is unsaved or in flight |
| `PreferencesService.Service.RetryWrites` | extensions/clientprefs/service.cpp:415-422 | Retrying clears every failure mark and saves every account in order |
| `PreferencesService.Service.Evict` | extensions/clientprefs/service.cpp:424-434 | The loop over the accounts keeps exactly those that are connected, busy or dirty |
| `PreferencesService.Service.Pump` | extensions/clientprefs/service.cpp:436-447 | Draining completions, saving and evicting, in this order, is the step of the model |
| `PreferencesService.Service.CanStop` | extensions/clientprefs/service.cpp:449-460 | True only when the queue is empty and the store holds every accepted value |
| `PreferencesService.Service.Persisted` | extensions/clientprefs/service.cpp:332-335 | True only when the store holds every accepted value of the player |
| `PreferencesService.Service.LayOver` | extensions/clientprefs/service.cpp:337-367 | The loop over a loaded snapshot gives the snapshot overlaid with the unsaved writes |
| `PreferencesService.Service.Settle` | extensions/clientprefs/service.cpp:385-413 | The loop over a saved batch forgets exactly the writes saved in their newest revision |
| `PreferencesService.Service.Work` | extensions/clientprefs/service.cpp:95-120 | One step of the worker runs the oldest unrun job against the store |
| `WorkQueue.RunAccounts` | include/source2root/work_queue.hpp:78-208 | With any number of workers every accepted job is waiting, running, ready or dispatched, exactly once, and no more than the capacity are pending |
| `WorkQueue.EverythingIsDispatched` | include/source2root/work_queue.hpp:78-208 | With a worker at most three steps a job bring every pending job to its dispatch |
| `WorkQueue.OneWorkerKeepsOrder` | include/source2root/work_queue.hpp:115-208 | A queue with one worker, or room for one job, whose completions are consumed dispatches in submission order; this is what the preferences model takes its queue to be |
| `WorkQueue.TwoWorkersMayOvertake` | include/source2root/work_queue.hpp:181-208 | With any two or more workers and room for two or more jobs, of any two jobs the one submitted second may be dispatched first |
| `WorkQueue.OrderIsKeptExactly` | include/source2root/work_queue.hpp:115-208 | A queue keeps the order over every run that consumes its completions if and only if it has at most one worker or room for at most one job |
| `DependencyGraph.FanAcyclic` | src/foundation.cpp:196-226 | New edges out of a plugin close no cycle when none of their targets is or reaches it, which is what the search establishes |
| `DependencyGraph.EndlessSetReachesCycle` | src/foundation.cpp:1266-1300 | In a finite set whose members all wait for a member, every member reaches a cycle |
| `DependencyGraph.AcyclicHasTop` | src/foundation.cpp:231-246 | A nonempty set of plugins in an acyclic graph has a member no other member needs |
| `PluginManager.Manager.CheckDependencies` | src/foundation.cpp:172-229 | Terminates on every table and accepts exactly when, with versions as numbers, dependents tolerate the version, every need runs at a version that is not smaller, and the candidate is not reachable from its needs |
| `PluginModel.BelowIsByNumber` | src/foundation.cpp:37-57 | For parts up to 65535 a version is below another exactly when its three parts side by side are the smaller number; versions neither below the other are equal |
| `PluginVersions.VersionsExactly` | src/foundation.cpp:37-57 | A text of three fields is a version exactly when each is digits of at most 65535, and then of these numbers |
| `PluginVersions.VersionsAreThree` | src/foundation.cpp:37-57 | Whatever is read as a version is three such fields with dots between |
| `PluginVersions.VersionReads` | src/foundation.cpp:37-57 | A written version reads back |
| `PluginManager.Manager.Reachable` | src/foundation.cpp:196-226 | The worklist search finds the candidate exactly when a walk from its needs leads to it |
| `PluginManager.Manager.FindDependent` | src/foundation.cpp:231-246 | Names a dependent exactly when there is one, paused ones aside when asked |
| `PluginManager.Manager.Prepare` | src/foundation.cpp:248-305 | Nothing runs before every check has passed |
| `PluginManager.Manager.Load` | src/foundation.cpp:317-336 | Loading is the step of the model and keeps the invariant, whatever becomes of the candidate |
| `PluginManager.Manager.Record` | src/foundation.cpp:1126-1150 | A failure is noted only where nothing of the plugin is alive |
| `PluginManager.Manager.Unload` | src/foundation.cpp:348-377 | Unloading is the step of the model: refused while anything loaded needs the plugin, staged otherwise |
| `PluginManager.Manager.Swap` | src/foundation.cpp:428-441 | The replacement takes over only after fresh checks and a finished clean-up |
| `PluginManager.Manager.Reload` | src/foundation.cpp:389-445 | Reloading, with its kept failed or pending replacement, is the step of the model |
| `PluginManager.Manager.Pause` | src/foundation.cpp:464-499 | Pausing is refused while anything that is not paused needs the plugin |
| `PluginManager.Manager.Resume` | src/foundation.cpp:501-527 | Resuming passes the same checks as loading |
| `PluginManager.Manager.Retry` | src/foundation.cpp:529-546 | Only a failed plugin without a replacement is retried |
| `PluginManager.Manager.NewestFirst` | src/foundation.cpp:561-568 | The order of unloading lists every plugin exactly once, the newest load first and equally old ones by falling name |
| `PluginManager.Manager.UnloadAll` | src/foundation.cpp:561-606 | The sweep terminates, is the sweep of the model, reports truly whether anything stayed, and leaves nothing when clean-ups do not fail |
| `PluginSafety.AcceptedIsServed` | src/foundation.cpp:188-195 | A candidate that passed the checks is served by everything it needs, even while it runs |
| `PluginSafety.InstallKeepsInv` | src/foundation.cpp:317-336 | Installing an accepted candidate, in whatever state it ended, keeps the graph acyclic and every need served |
| `PluginSafety.UnloadKeepsInv` | src/foundation.cpp:348-377 | Unloading keeps the invariant at each of its stages |
| `PluginSafety.SwapKeepsInv` | src/foundation.cpp:428-441 | Putting a replacement in place keeps the invariant, including a replacement prepared from a paused plugin |
| `PluginSafety.ReloadKeepsInv` | src/foundation.cpp:389-445 | Every outcome of a reload keeps the invariant |
| `PluginSafety.PauseKeepsInv` | src/foundation.cpp:464-499 | Pausing never leaves a running dependent |
| `PluginSafety.ResumeKeepsInv` | src/foundation.cpp:501-527 | Resuming never lets a plugin run on something that does not |
| `PluginSafety.FaultKeepsInv` | src/foundation.cpp:769-793 | Scripts that retire themselves after three faults, at any time, keep the invariant |
| `PluginRuns.RunKeepsInv` | src/foundation.cpp:307-606 | Every run of loads, unloads, reloads, pauses, resumes, retries, sweeps, faults and discoveries keeps the invariant |
| `PluginRuns.DependencySafety` | src/foundation.cpp:172-246 | After any run the loaded scripts, current and replacement together, form no cycle; each of their needs is loaded at a sufficient version; and what a running or loading script needs is not paused, disabled or failed |
| `PluginCalls.LoadRuns` | src/foundation.cpp:248-336 | A plugin is loaded exactly when its manifest is its own, everything it needs runs, nothing of it is alive and its start succeeds; then it runs, newest of all; others keep their scripts but for callbacks that failed |
| `PluginCalls.RefusalIsNoted` | src/foundation.cpp:1126-1150 | A refused plugin is listed as failed with the manifest found, exactly if nothing of it is alive |
| `PluginCalls.DiscoveryLists` | src/foundation.cpp:1218-1241 | A disabled plugin found for the first time is listed and not loaded |
| `PluginCalls.UnloadDisables` | src/foundation.cpp:348-377 | A plugin is unloaded exactly when nobody needs it and its clean-ups finish; nobody else is unloaded or changes its manifest |
| `PluginCalls.ReloadReplaces` | src/foundation.cpp:389-445 | Without callbacks that fail meanwhile a plugin is reloaded exactly when the new manifest may run and starts and the old script is cleaned up; it stays paused if it was; if only the clean-up fails the new script waits beside the old one |
| `PluginCalls.PendingTakesOver` | src/foundation.cpp:428-445 | A waiting replacement takes over exactly when it still may run and the old script is cleaned up |
| `PluginCalls.FailedReplacementGoes` | src/foundation.cpp:400-427 | A failed replacement is only cleaned up |
| `PluginCalls.PausePauses` | src/foundation.cpp:464-499 | A running plugin is paused exactly when no call of it is active and nothing that is not paused needs it |
| `PluginCalls.ResumeRuns` | src/foundation.cpp:501-530 | A paused plugin runs again exactly when everything it needs does and its menus are cleared |
| `PluginRuns.ReloadKeepsThePlugin` | src/foundation.cpp:389-445 | After any run a reload of a loaded plugin leaves it loaded: the old manifest if it fails, the new one, paused if it was paused, if it succeeds |
| `PluginRuns.ResumeUndoesPause` | src/foundation.cpp:464-527 | Resuming gives back the very state before a pause if and only if everything the plugin needs still runs |
| `PluginRuns.UnloadAllAfterAnyRun` | src/foundation.cpp:561-606 | After any run the sweep tries plugins dependents first, explains whatever stays, and leaves nothing if no clean-up fails |
| `PluginRuns.PendingIsReached` | src/foundation.cpp:389-445 | Two loads and a reload whose clean-up fails half-way lead from the empty table to that one, which is sound |
| `PluginSweep.UnloadAllIsOrderly` | src/foundation.cpp:561-606 | Whatever clean-ups do: each plugin is tried once, after everything that needed it; what stays loaded was tried, or something else that is left needed it |
| `PluginSweep.UnloadAllIsComplete` | src/foundation.cpp:561-606 | If clean-ups do not fail, everything tried is unloaded and nothing stays loaded |
| `PluginSweep.UnloadAllStrandsNobody` | src/foundation.cpp:561-606 | From any sound table: whatever stays loaded was tried or is still needed by something loaded, unless some pending replacement needs what its current script does not and its clean-up ends between the two |
| `PluginSweep.RiskyMayStrand` | src/foundation.cpp:561-606 | For every table where only a pending replacement needs a plugin that stands before it in the order, and its clean-up ends with the replacement gone and the current script there: that plugin stays loaded, untried and unneeded if and only if the first pass unloads nothing |
| `PluginSweep.FailingCleanupsStrand` | src/foundation.cpp:561-606 | In such a table it stays loaded, untried and unneeded whenever the current scripts of all other plugins fail to clean up |
| `PluginSweep.PendingReplacementMayStrand` | src/foundation.cpp:561-606 | A table of that kind with two plugins |
| `PluginDiscovery.DiscoverPending` | src/foundation.cpp:1266-1314 | Terminates; tries each pending plugin once and after all its pending needs, with the table after all turns and notes stated; leaves exactly those that reach a dependency cycle among the pending plugins, and notes the new ones among them as failed; a success exactly when every turn was one and none is left |
| `PluginDiscovery.RecordLeft` | src/foundation.cpp:1301-1314 | Exactly the new plugins that were left out are noted as failed, each once; those with a loaded script keep it |
| `PluginDiscovery.TakeTurns` | src/foundation.cpp:1266-1300 | One pass tries whatever waits for nothing; a pass without progress leaves only plugins that wait |
| `VoiceLayer.Voice.Filter` | src/voice.cpp:41-74 | A tracked or muted link remembers the wish and keeps its restoring owner; a call made by the layer itself passes unchanged |
| `VoiceLayer.Voice.EngineAsks` | src/voice.cpp:41-74 | Every call of the engine that is let through leaves the layer knowing its wish; a broken filter leaves everything as it was |
| `VoiceLayer.Voice.Write` | src/voice.cpp:76-99 | A write of the layer leaves the remembered wish alone, and its success means the link is as written |
| `VoiceLayer.Voice.Adopt` | src/voice.cpp:130-154 | A link comes to be tracked with the wish the engine has for it |
| `VoiceLayer.Voice.Apply` | src/voice.cpp:101-166 | True means every receiver connected throughout has the sender silenced; a receiver is skipped only for a broken call of its own, and the list is cut short only by a broken call or a player beyond the 128th slot; with neither the answer is true |
| `VoiceLayer.Voice.Removed` | src/voice.cpp:168-175 | Exactly the pairs of a sender nobody mutes come to wait for the owner |
| `VoiceLayer.Voice.Restore` | src/voice.cpp:177-206 | Gives back pairs with the wish they remember; never touches a muted sender; leaves no more of what is due than calls were broken |
| `VoiceLayer.Voice.Set` | src/voice.cpp:208-258 | A true mute silences the sender for every receiver connected throughout, a mute that was begun everybody but those whose calls were broken, and one is begun only when no call before was broken; a true unmute leaves no pair of the player unless another owner mutes it; when no call is broken either is answered with true for a connected player |
| `VoiceLayer.Voice.Release` | src/voice.cpp:260-288 | A true release leaves no unmuted pair waiting for the owner, nor of a sender only it muted; releasing everybody leaves no pair at all; without broken calls the answer is true |
| `VoiceLayer.Voice.Refresh` | src/voice.cpp:290-325 | Players known to be gone lose their mutes, others keep them; true means everybody still muted was connected, every connected muted sender is silenced and nothing else is tracked; without broken calls the answer is true |
| `VoiceLayer.Voice.Suspend` | src/voice.cpp:327-346 | A first true suspension leaves no mute and no pair; a second leaves exactly the pairs of senders muted since the first; a failed one breaks a silence only if enforcing again fails too; without broken calls the answer is true |
| `VoiceLayer.Voice.SuspendMuteSuspend` | src/voice.cpp:327-346 | Suspending, muting a connected player and suspending again, each answered with true, leaves the player tracked and not heard; without broken calls all three are |
| `VoiceLayer.Voice.Resume` | src/voice.cpp:348-356 | The parked mutes take the place of any made while suspended; true means they are enforced; without broken calls the answer is true |
| `VoiceLayer.Voice.Disconnected` | src/voice.cpp:358-390 | Exactly what concerns the departed connection is forgotten |
| `VoiceLayer.Voice.Serve` | src/voice.cpp:30-390 | After any calls with any failures, reconnects and departures, each connected link is tracked with the wish the engine last had, or heard as the engine wishes; and a link silenced at any moment, by a true mute among others, is silenced at the end if its sender was muted ever since and both ends are connected, unless a suspension failed twice over; a call about a connected player during which nothing failed is answered with true |
| `VoiceModel.WriteKeeps` | src/voice.cpp:76-99 | Writing a tracked link, while players come and go, keeps the layer transparent; writing silence keeps silence |
| `VoiceModel.TrackKeeps` | src/voice.cpp:130-154 | Tracking a connected link in the place of a stale one keeps the layer transparent |
| `VoiceModel.ForgetKeeps` | src/voice.cpp:191-202 | A pair may be forgotten when its link is as the engine wishes or dead |
| `VoiceModel.NothingTracked` | src/voice.cpp:327-346 | With no pairs tracked every connected link is heard as the engine wishes |
| `VoiceModel.LiveThroughout` | src/identity.h:20-22 | A connection seen before and after was there meanwhile, because connection numbers are not reused |
| `VoiceModel.SilenceLasts` | src/voice.cpp:30-390 | Over every run of moments: silence lasts while the sender is muted and the ends stay connected |
| `VoiceModel.TwiceFailedSuspension` | src/voice.cpp:327-346 | Two silenced links of a muted player, a suspension that gives one back and fails, and no enforcement after it: the mute is in force and the link is heard |
| `NameTable.Table.Register` | src/foundation.cpp:1331-1386 | A name is taken for a script exactly when it does not have it, whoever has it defined it alike and is the same plugin where names are exclusive, and the host does not refuse |
| `NameTable.Table.Release` | src/foundation.cpp:691-723 | The last owner takes the name out of the engine first; any other just lets go; a refusal changes nothing |
| `NameTable.Table.ReleaseAll` | src/foundation.cpp:683-723 | One attempt keeps the two-way registry consistent, leaves other scripts their names, and removes from the engine only names nobody else owned: a reload never unregisters a shared one |
| `NameTable.RegisterKeeps` | src/convars.cpp:58-117 | Adding an owner keeps owners and lists in agreement, owner sets nonempty and of one plugin |
| `NameTable.OwnersChange` | src/convars.cpp:58-193 | Registering and releasing concern one name: its owners gain or lose the script, and it goes with the last of them |
| `NameTable.ReleaseKeeps` | src/convars.cpp:163-193 | Taking an owner away keeps all of that |
| `NameTable.DismissKeeps` | src/foundation.cpp:743-748 | A script object that lists nothing may go without leaving a trace |
| `ServiceLeases.Leases.ServiceUsers` | src/foundation.cpp:755-767 | The sum over providers and menus is the number of distinct reasons to hold the lease |
| `ServiceLeases.Leases.RegisterNative` | src/bindings.cpp:420-456 | A registration gets a number never used before, exactly when the native is new and numbers are left |
| `ServiceLeases.Leases.UnregisterNative` | src/bindings.cpp:458-473 | A native goes exactly when its extension asks and nothing uses it |
| `ServiceLeases.Leases.Bind` | src/bindings.cpp:374-384 | Binding stops at the first refused lease and leaves the counts true for what was bound |
| `ServiceLeases.Leases.Unbind` | src/foundation.cpp:727-739 | One native is taken from a script unless a call into it runs, and then nothing changes; the last user gives the lease back first |
| `ServiceLeases.Leases.BeginCall` | src/bindings.cpp:399-409 | A call into a native is counted while it runs and changes nothing else |
| `ServiceLeases.Leases.EndCall` | src/bindings.cpp:399-409 | A call into a native that ends, by returning or throwing, is counted out of its own native only |
| `ServiceLeases.Leases.ReleaseAll` | src/foundation.cpp:727-739 | One attempt at all natives of a script keeps every count true; it finishes if the host refuses nothing and no call runs |
| `ServiceLeases.Leases.ClaimForMenu` | src/native_menus.cpp:50-68 | A menu takes the lease if it is the first user, and leaves nothing behind when refused |
| `ServiceLeases.Leases.DropForMenu` | src/native_menus.cpp:133-138 | A menu gives the lease back if it is the last user, and stays when refused |
| `ServiceLeases.BindKeeps` | src/bindings.cpp:374-384 | The lease is held exactly when somebody uses the service, and every count is the number of scripts that list the provider: kept by a binding |
| `ServiceLeases.UnbindKeeps` | src/foundation.cpp:727-739 | The same, kept by an unbinding that gives the lease back when one claim was left |
| `ServiceLeases.MenuOpens` | src/native_menus.cpp:50-68 | The same, kept by a menu that opens |
| `ServiceLeases.MenuCloses` | src/native_menus.cpp:133-138 | The same, kept by a menu that closes |
| `MenuSessions.Board.CloseNative` | src/native_menus.cpp:88-139 | Takes the screen away, then reports a selection at most once, also when the callback re-enters, then gives the lease back; a selection is reported exactly if its player is still there and allowed; a menu whose callback runs is not touched; any other is closed unless a screen or a lease was refused, and then it is marked as closing |
| `MenuSessions.Board.CloseSlot` | src/dispatch.cpp:118-144 | Empties a slot of both kinds of menu exactly if no screen and no lease was refused and no callback of the menu runs; otherwise its script menu stays as it was |
| `MenuSessions.Board.Show` | src/bindings.cpp:299-352 | A shown menu has the slot to itself, for this very connection and under a session never used before; it is shown whenever it may be and nothing is refused; a menu that may not be shown changes nothing |
| `MenuSessions.Board.CloseMenu` | src/bindings.cpp:354-372 | A closed menu is on no screen and its handle is gone, other menus stay; it closes exactly if its handle exists and nothing is refused |
| `MenuSessions.Board.OpenNative` | src/native_menus.cpp:8-86 | A session other than zero names a menu of this extension for this connection, on the screen unless both the drawing and the closing failed; there is one whenever it is allowed, nothing is refused and no callback of the menu it replaces runs |
| `MenuSessions.Board.CloseAndReport` | src/dispatch.cpp:404-428 | A script menu leaves the screen before its callback runs, so its session reports once; otherwise the screen could not be cleared and everything is as before |
| `MenuSessions.Board.Input` | src/dispatch.cpp:377-445 | A key for another session or connection, or for a menu that is closing or reporting, changes nothing; a refused key closes the menu without a word; a choice or the way back closes a script menu and reports its session next unless the screen cannot be cleared; a choice in a menu of an extension reports if its player is there and nothing is refused; a cancellation closes without a word; any other key leaves the menus as they are |
| `MenuSessions.Board.Tick` | src/dispatch.cpp:218-247 | When nothing is refused exactly those menus are gone that expired, are forbidden, were closing or whose player left, a menu whose callback runs aside; nothing is reported and nothing opened |
| `MenuSessions.Board.MapChanged` | src/dispatch.cpp:309-337 | After a map change no script menu is on a screen and every menu handle is gone; of the menus of extensions only those with a running callback are left if the leases were taken back |
| `MenuSessions.Board.Left` | src/dispatch.cpp:339-358 | When a player left, exactly the menus meant for that connection go, one whose callback runs or whose lease is refused aside; those of a newer connection in the slot stay |
| `MenuSessions.Board.Put` | src/bindings.cpp:326-345 | A menu is drawn before it is entered, under the next session; one that could not be drawn leaves no trace |
| `MenuSessions.Board.Abandon` | src/native_menus.cpp:88-139 | A menu whose player or map is gone closes without a word and without touching a screen, exactly if its callback does not run and the lease is taken back |
| `MenuScreens.TruthOfPlayers` | src/dispatch.cpp:118-144 | A player who leaves, or one who takes the slot of another, keeps it true that connected players see exactly their menus |
| `MenuSessions.Board.CloseOwned` | src/dispatch.cpp:146-155 | True exactly when no menu of the script is on a screen, and exactly when every screen could be cleared; menus of others stay |
| `MenuSessions.Board.Perform` | src/dispatch.cpp:309-445 | Any acts, with players coming and going and callbacks nested to any depth: every connected player sees exactly the menu of its slot and none meant for an earlier connection; displays refer to live handles, no menu is on two screens, no slot has two menus, sessions only grow, no session reports twice, and leases match menus |
| `MenuSessions.DisplayGoneKeeps` | src/dispatch.cpp:126-130 | A display that goes takes its live handle along |
| `MenuSessions.SelectionKeeps` | src/dispatch.cpp:419-428 | Reporting the session of a menu that has left the screen keeps reports unique |
| `CallbackTokens.Tokens.Create` | src/extension_calls.cpp:167-193 | A token is new, was never delivered, and is listed by its script |
| `CallbackTokens.Tokens.Cancel` | src/extension_calls.cpp:451-468 | Only its own extension cancels a token, and then nothing mentions it |
| `CallbackTokens.Tokens.Deliver` | src/extension_calls.cpp:470-518 | Delivered, busy, invalid or not found, each exactly when the token, the script and the call stack say so; a token of the kind asked for is gone unless the answer is busy, and is gone before the script runs, so it is delivered at most once |
| `CallbackTokens.Tokens.Retain` | src/extension_calls.cpp:520-543 | A token of the extension becomes persistent, or is dropped exactly when its script is retiring; any other call changes nothing |
| `CallbackTokens.Tokens.Invoke` | src/extension_calls.cpp:545-621 | Each answer exactly when it applies; a retained callback loses its token exactly when it fails or its script is retiring |
| `CallbackTokens.ReleaseKeeps` | src/foundation.cpp:666-669 | Dropping all tokens of a script leaves each other token listed by its own script |
| `ScriptResources.Resources.Cleanup` | src/foundation.cpp:653-749 | Each attempt, whatever the host refuses, keeps every registry consistent, takes only from the script, and leaves the names, leases and tokens of others; a finished one leaves nothing that mentions the script, and one where nothing is refused, no screen fails and no call runs finishes |
| `SnapshotStore.Store.Save` | tools/compatibility_update.py:344-357 | The index on disk is the old or the new one at every moment, also when an error is reported after the replacement; it is done exactly if no operation failed, and no single failure leaves a temporary file |
| `SnapshotStore.Store.Stage` | tools/compatibility_update.py:376-419 | The index in force is the old one or has exactly this release added; an answer comes exactly if no operation failed, and is then as the checks say; nothing else on the disk changes, no single failure leaves anything unfinished behind, and no sequence gets a second manifest |
| `SnapshotStore.Store.WriteRelease` | tools/compatibility_update.py:400-414 | A release directory appears whole or not at all, and no single failure leaves a staging directory |
| `SnapshotStore.Store.RemoveTree` | tools/compatibility_update.py:412-414 | Removing a directory file by file touches nothing the index points to |
| `SnapshotStore.Store.Select` | tools/compatibility_update.py:421-434 | Selects exactly a reviewed release that is not older than the one in use |
| `SnapshotStore.Store.Rollback` | tools/compatibility_update.py:436-444 | Goes back exactly when there is a previous selection that is still allowed |
| `SnapshotStore.Store.Prune` | tools/compatibility_update.py:481-491 | The release leaves the index before its files go; the selected, previous and highest sequence and every other release and directory stay |
| `SnapshotStore.Store.Serve` | tools/compatibility_update.py:318-491 | Whatever fails and wherever the machine stops: the index can be read back, indexed releases are complete, the highest sequence never falls, and a sequence keeps its first manifest, pruned or not |
| `SnapshotStore.StageKeeps` | tools/compatibility_update.py:400-417 | A whole release may be indexed: its sequence was never used before |
| `SnapshotStore.StagesExactly` | tools/compatibility_update.py:376-419 | A manifest is staged exactly when it is sound, timely, not older than the highest, new, and there is room for it or its own directory is there; it is unchanged exactly when the index has it with these bytes |
| `SnapshotIndex.CommandsDo` | tools/compatibility_update.py:376-491 | Staging adds one release and leaves the choice alone; selecting remembers the old choice; rolling back exchanges the two; pruning takes one release away and leaves the choices, the highest sequence and every other release alone |
| `SnapshotStore.RepeatFinishesStage` | tools/compatibility_update.py:400-419 | Repeating a stage that stopped after its release was whole finishes it, and repeating it once more changes nothing |
| `SnapshotStore.OrphanDecides` | tools/compatibility_update.py:395-397 | An orphan left by a stopped stage lets in its own manifest and no other of its sequence |
| `SnapshotIndex.StagedOk` | tools/compatibility_update.py:318-342 | Staging keeps everything that reading the index back insists on |
| `SnapshotIndex.PrunedOk` | tools/compatibility_update.py:481-491 | Pruning keeps it too: the highest sequence stays the largest |
| `SnapshotIndex.StagedRemembers` | tools/compatibility_update.py:376-419 | A sequence that may be staged was never bound to a manifest |
| `SnapshotIndex.RollbackUndoesSelect` | tools/compatibility_update.py:421-444 | A rollback undoes a selection, and a second rollback the first |
| `HookService.Service.Open` | extensions/dhooks/hooks.cpp:92-142 | An opened target is kept and lent; opens of one lease share it; anything may happen while the host resolves it; none is given only at the limit, after a refusal of the host, or for a prototype that differs |
| `HookService.Service.Attach` | extensions/dhooks/hooks.cpp:227-261 | Storage is listed before the host hears of it; a returned hook is listed, not on its way any more, and its callback is in the host under the handle it knows; a refusal with nothing else happening leaves the hooks as they were; none is given only without a target, at the limit, or after a refusal of the host |
| `HookService.Service.GiveUp` | extensions/dhooks/hooks.cpp:254-258 | The hook of a refused callback is gone, whatever happened meanwhile, and its registration is closed or gone when nothing did |
| `HookService.Service.InstallRunning` | extensions/dhooks/hooks.cpp:242-258 | A host that enters the callback while it installs it finds its registration listed until it answers; the callback closes it exactly if it asks for that |
| `HookService.Service.Close` | extensions/dhooks/hooks.cpp:263-277 | The retire function runs the first time only |
| `HookService.Service.Collect` | extensions/dhooks/hooks.cpp:279-332 | Whatever the host refuses and lets happen inside, running callbacks keep their registrations; when it does neither, nothing that can go is left, and when scripts hold nothing and every registration is closed and idle the service is empty and lets go of itself |
| `HookService.Service.Remove` | extensions/dhooks/hooks.cpp:294-313 | A closed, idle registration leaves the list only after the host has let go of it |
| `HookService.Service.Release` | extensions/dhooks/hooks.cpp:315-328 | For all acts inside the host call: an agreed release keeps whatever is used if and only if nobody uses the target at the answer; nobody does if it was not opened inside, which no act that opens no such lease can do; and if the acts let go of no Target object, somebody does exactly when it was |
| `HookService.Service.Dispatch` | extensions/dhooks/hooks.cpp:334-380 | The callback runs exactly if it is in the host, not closed, enabled and fewer than eight run already; its registration is listed and stays while it runs, and is closed if it asks for that; a callback that does nothing else changes nothing else |
| `HookService.Service.Serve` | extensions/dhooks/hooks.cpp:92-380 | After any run with re-entry at every host call: installed callbacks have listed registrations, each retire function ran once if closed and never before, the host lends exactly the kept targets, at most 256 registrations are listed; whatever is used is kept if no open happens inside a release, and at most 64 targets are kept if nothing happens inside a resolution |
| `HookLifetimes.DropTargetLoses` | extensions/dhooks/hooks.cpp:315-328 | Dropping a target keeps every use served if and only if nobody uses it; otherwise exactly this target is lost |
| `HookLifetimes.ReopeningLosesTarget` | extensions/dhooks/hooks.cpp:126-141 | For every release under way: a Target object opened for the target inside it is left without a lease once the host agrees |
| `HookLifetimes.ReopeningInVain` | extensions/dhooks/hooks.cpp:315-328 | If that object goes before the answer nothing is lost |
| `HookLifetimes.ReopeningHappens` | extensions/dhooks/hooks.cpp:315-328 | Such a release: one target, opened and let go of; opening it again inside leaves an object on a target neither kept nor lent |
| `HookLifetimes.NestedOpensPassTheLimit` | extensions/dhooks/hooks.cpp:97-138 | An open that waits for the host while another finishes may bring the kept targets to 65, from every state with 63 |
| `HookLifetimes.LeaveStep` | extensions/dhooks/hooks.cpp:356-372 | After a callback returns, everything is as the nested acts left it |
| `HookLifetimes.UnlistedStep` | extensions/dhooks/hooks.cpp:294-313 | A closed registration without a handle may leave the list; a hook a script holds keeps the shell |
| `HookLifetimes.UnhookStep` | extensions/dhooks/hooks.cpp:38-46 | A script may let go of its hook at any time |
| `HookLifetimes.InstallLeftGood` | extensions/dhooks/hooks.cpp:242-258 | The end of an installation, given or refused, keeps the invariant |
| `HandleTable.HandleBits` | src/handles.h:20-36 | Slot and generation do not meet in the bits of a handle, and the sign bit stays clear |
| `HandleTable.Handles.Add` | src/handles.h:14-36 | Gives a handle never given before and adds exactly it; fails exactly for a missing owner or kind, or when all 4095 slots are taken or worn out |
| `HandleTable.Handles.Get` | src/handles.h:38-49 | A handle resolves exactly when it is live, to its owner and kind |
| `HandleTable.Handles.Remove` | src/handles.h:51-59 | Takes exactly the handle away; it is never given again |
| `HandleTable.Handles.Owned` | src/handles.h:61-75 | Lists exactly the live handles of the owner, each once |
| `HandleTable.Handles.Retire` | src/handles.h:77-89 | Takes away exactly the handles of the owner and kind |
| `HandleTable.Handles.Count` | src/handles.h:91-99 | Counts the live handles |
| `HandleTable.FillKeeps` | src/handles.h:14-36 | Filling a slot issues one handle that was never issued and changes no other |
| `HandleTable.EmptyKeeps` | src/handles.h:77-89 | Emptying slots takes exactly their handles; what was issued stays issued |
| `KeyValuesParser.Parser.Pass` | src/keyvalues.cpp:73-97 | The loop over blanks and comments ends where the specification says |
| `KeyValuesParser.Parser.ReadToken` | src/keyvalues.cpp:99-156 | Reads the token of the specification, or fails at its place |
| `KeyValuesParser.Parser.Parse` | src/keyvalues.cpp:17-58 | Terminates on every text and reads what the specification says |
| `KeyValuesParser.Read` | src/keyvalues.cpp:160-181 | Reading a text from its start, past a byte-order mark |
| `KeyValuesLanguage.AnyLayoutReads` | src/keyvalues.cpp:17-158 | However a configuration is laid out, with blanks and both kinds of comment anywhere and any word in quotes or, where it can be, bare, it reads as the trees it says, within the limits of depth, entries and length |
| `KeyValuesLanguage.SpellingReads` | src/keyvalues.cpp:99-156 | Every text of at most 4096 characters whose control characters are newlines, returns and tabs is read back from its spelling with the escapes n, r and t, a quote and a backslash |
| `KeyValuesLanguage.OtherEscapesFail` | src/keyvalues.cpp:126-142 | Any other character after a backslash fails right behind it |
| `KeyValuesLanguage.BareRefusals` | src/keyvalues.cpp:99-125 | A quote or control character in a bare word fails at its place, and so does a brace where a word must be |
| `KeyValuesLanguage.OpenCommentFails` | src/keyvalues.cpp:85-91 | A comment that is not closed fails where it begins |
| `KeyValuesLanguage.BracesMustMatch` | src/keyvalues.cpp:24-57 | A closing brace too many, and one too few, fail at their place |
| `KeyValuesPrinter.QuoteRoundTrip` | tools/migrate_admins.py:94-95 | A quoted text is read back if and only if it has at most 4096 characters and none is a control character |
| `KeyValuesPrinter.PrintRoundTrip` | tools/migrate_admins.py:199-218 | Reading what was printed gives the same trees, within the limits |
| `KeyValuesPrinter.PrintRoundTripExactly` | tools/migrate_admins.py:199-218 | For all trees: they come back if and only if they are within the limits of size, depth and entries and have no control characters |
| `KeyValuesPrinter.ListShaped` | src/keyvalues.cpp:17-58 | Whatever is read is within those limits, and its entries are counted |
| `KeyValuesPrinter.ReprintExactly` | src/keyvalues.cpp:126-142 | For all texts that are read: printing and reading again gives the same if and only if no escape stood for a control character |
| `Migration.GroupText` | tools/migrate_admins.py:199-211 | The text built line by line is the printed tree of the groups, and reads back to it |
| `Migration.AdminText` | tools/migrate_admins.py:212-220 | The text built line by line is the printed tree of the administrators, and reads back to it |
| `Timestamps.UtcInverse` | src/bans.cpp:211-274 | A time has a timestamp if and only if it lies from 1970-01-01T00:00:00Z to 9999-12-31T23:59:59Z, and the timestamp reads back to it |
| `Timestamps.ParseInverse` | src/bans.cpp:238-274 | Every text that is read is the timestamp of its time |
| `Timestamps.DateInverse` | src/bans.cpp:221-236 | The date found for the day number of a date is the date |
| `Timestamps.DayInverse` | src/bans.cpp:221-236 | Every day has a valid date whose day number it is |
| `Timestamps.YearStartIs` | src/bans.cpp:221-236 | The days before a year are those of the Gregorian calendar in closed form: 365 a year and one for every fourth year but three in four hundred |
| `Timestamps.DayNumberIs` | src/bans.cpp:221-272 | The number of a day is that of the proleptic Gregorian calendar in closed form, from 1 March of the year 0 |
| `Timestamps.LeapDay` | src/bans.cpp:262-270 | 29 February is a date exactly in the years that are a day longer |
| `Timestamps.ValidDateIs` | src/bans.cpp:262-270 | A date is valid exactly when its day comes before the first of the next month in that closed form |
| `Timestamps.ParseUtcExactly` | src/bans.cpp:238-274 | A text is read exactly when it has the form and a day of the calendar from 1970 on, and means the seconds of the closed form |
| `Bans.IdentityInverse` | src/identity.cpp:29-61 | A written account number is read back as the account |
| `Bans.BracketsRead` | src/identity.cpp:43-52 | An account number in brackets reads as that account |
| `Bans.HalvesRead` | src/identity.cpp:32-42 | An account in two halves reads as that account, whichever universe is written |
| `Bans.LastTimeIs` | src/bans.cpp:403-404 | The last time a ban may end is 253402300799 |
| `Bans.EntryInverse` | src/bans.cpp:488-517 | A sound ban is always written, and its entry reads back to it |
| `Bans.UntouchedEntry` | src/bans.cpp:510-517 | An untouched ban keeps its entry, extra fields and spelling of times included, but for the spelling of its account |
| `Bans.ReadTableIsOk` | src/bans.cpp:123-205 | Every ban that is read is sound |
| `Bans.WrittenReads` | src/bans.cpp:486-518 | The written entries, in any order, read back to exactly the table |
| `BanStore.Store.Load` | src/bans.cpp:326-356 | A store that says it is loaded holds the reading of its file; without file faults it loads exactly when there is no file or the file can be read |
| `BanStore.Store.AddBan` | src/bans.cpp:370-427 | Adds exactly the ban, created now and ending so many times sixty seconds later or never, or changes nothing in memory; the file holds the table before or after it; in step with its file and without file faults it adds exactly a ban whose texts are sound, whose times can be written and that fits |
| `BanStore.Store.RemoveBan` | src/bans.cpp:429-458 | Removes exactly the ban, or changes nothing in memory; in step with its file and without file faults it does so for every valid account |
| `BanStore.Store.Save` | src/bans.cpp:460-546 | No time is ever unwritable; what is written reads back to the table and keeps untouched entries; it is saved exactly if the file holds what was last read or written and no operation fails, and a changed file is never overwritten |
| `BanStore.ServeAndRestart` | src/bans.cpp:326-546 | After any changes that were carried out, the store and one started afresh both hold the fold of the changes over the old bans; changes that may be made are carried out when no file operation fails |

## Left out

- Preferences: accounts and cookies are records in maps, with a serial number in the place of object identity; a cookie object that a caller still holds after it left the table is not kept.
- Preferences: tickets, cancellation, the thread check and the destructor; SQL and the database files; removal or change of catalogue entries by other servers.
- Plugins: script code, native binding and bytecode are events (ready, cleaned up, stuck); owner numbers, timers, error texts and the management flag, which only refuses nested calls, are not kept.
- Plugins: whether a manifest or its bytecode changed during a refresh is part of which items are pending.
- PluginManager.Manager.Prepare: says nothing of the error text, which is not part of this model.
- ScriptResources.Resources.Cleanup: the voice release of a clean-up is a yes or no here, because the voice layer is proved on its own; gags, timers and pending map changes have no registry to keep.
- Registries: limits on the number of resources, the syntax of names and permissions, and the checks on console variable values; console variables share the table of commands, with their definition as the thing that must agree.
- MenuSessions.Board.Show: permissions, expiry, item limits and the state of the script are choices of the environment.
- MenuSessions.Board.Input: the cursor inside a menu and what a menu looks like are left out, so that a key is back, cancel, select, change or nothing; whether the callback it runs succeeded is not part of the answer.
- Voice: error texts and the once-per-second schedule of refreshes.
- Voice: changes of who is connected inside `Lookup` itself, so that the two look-ups of one filtered call see one world.
- Snapshots: the fetch, the lock file, the age check of a manifest (a parameter), exports, hard links and permissions.
- Hooks: call arguments, buffers and frames, entity leases, enabling and disabling (a choice of the environment), and engine worker threads, which return before touching anything.
- HandleTable.Handles.Remove: destructors that re-enter the table; the value is detached before they run.
- HandleTable.HandleBits: the table itself counts in integers; the bit form of a handle is tied to them by `HandleSum`.
- KeyValues: the file size check and the line number of a failure, of which the place is kept; characters stand for bytes.
- Migration: which groups and administrators come out of the input, and the other files it writes.
- HookService.Service.Attach: a second entry into a callback that is still being installed, and anything between its first entry and the host's answer.
- BanStore.Store.Save: the size limit of the file and the encoder's refusal of bad UTF-8 are choices of the environment.
- Ban queries by time, and JSON numbers, duplicate keys and nesting.
- Engine adapter, rendering, HTTP, SQL drivers, regular expressions, geography, SDK facades and build scripts: calls into other libraries or simple guards.
