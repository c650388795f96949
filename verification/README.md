# Local agent sandbox: verified model

A Dafny model of the two parts of the local agent sandbox server that everything else rests on,
and of its command tokenizer. `dafny verify dfyconfig.toml` checks all of it.

**The object store and its watch protocol.** One resource-version counter, a capped event history,
live subscriptions with bounded buffers, optimistic concurrency, the status/spec merge rules and the
write-through persister. `StoreSpec` says what each critical section does to the store's value;
`ObjectStore`, `WatchPump` and `Persist` hold the code with its fields, channels and buckets, each
method proved against that value; `StoreRuns`, `PatchTwice`, `Watch`, `WatchTheorems` and `Persist`
prove what holds over runs, `WriteRules` and `Wanted` tell by fields, names and namespaces what each write makes and
what each list and watch shows, and `WatchSystem` that the store on the heap with all its pumps makes the watch
protocol's steps. The watch protocol is a state machine in which writes, registrations, every
receive and delivery of a pump, drops, cancels and deregistrations interleave freely.

**The reconcilers as a protocol over the store.** `Protocol` takes every store call of a claim pass,
and of the orphan check of a sandbox pass, as one step; passes for one claim do not overlap, and
everything else (users, pool passes, trimming, cascades, expiry) may happen between any two steps.
`ProtocolInv`, `Binding`, `Expiry`, `Collection` and `Exactness` prove what holds in every interleaving.
`Reconcilers` is the code of the passes over the store's kinds and the driver's containers and volumes
(the driver as the in-memory one of `internal/driver/fake.go`), each pass alone, with the recursive
delete hook; `Cascade`, `PoolRules`, `SandboxConditions`, `PodMapping`, `Build` and `ClaimAlone` say
what those passes come to, and `Deadlines`, `ClaimEnds`, `Deletion` and `SandboxPass` tell it once more by the clock,
the owners, the container and the driver, without the functions the passes compute with.

**The tokenizer.** `SplitArgs`: the byte loop, a word grammar, and quoting; `Quoting`: every way of writing words down.

The reconcilers' objects are decoded records in one namespace, with UIDs as numbers and 0 for the empty
one, and times in whole seconds, to which the store truncates condition times.

What the code does differently from what its comments or its name suggest, and what is proved of it:

- The comment at `internal/store/watch.go:95-99` relies on stored objects being out of everybody's reach.
  They are (`ObjectStore.Store.Valid`, kept by every method), but the objects of live events are not copied
  on delivery (`internal/store/watch.go:162-175`), so the history and all subscribers share them. That nobody
  alters one is a separate predicate, `Intact`, which the store's own methods keep. A resumed watch replays the
  history as its objects read when it starts (`WatchPump.StartWatch`), and these are the events that were emitted
  exactly if `Intact` holds (`ObjectStore.Store.IntactIsNow`).
- A watch that resumes below the oldest retained version gets a snapshot without deletions. It rebuilds the
  contents if and only if nothing listed then was deleted since (`WatchTheorems.FallbackMissesExactlyDeletions`).
- Loading a snapshot fails as a whole if and only if some stored object has no kind
  (`Persist.RestartFromAnyPrefix`).
- A namespace's store keys are its own if and only if it has no slash (`Objects.PathsTellNamespaces`), and the
  same goes for reading a queue key back (`ManagerKeys.KeysRoundTrip`); the store does not check. Any two objects
  share a key exactly if one is the other cut at an earlier slash (`Objects.PathCollisions`,
  `Objects.SlashedPathsCollide`).
- A sandbox pass, run alone, collects exactly the orphans (`Collection.SweepCollectsExactly`). Interleaved it
  may delete a sandbox that a living claim has just taken over, because it deletes by name without the version
  it read: `Collection.CollectionCanTakeALiveSandbox` gives such a run from the empty store. In every
  interleaving, what it deletes is no orphan if and only if its present owners live and it was taken over or
  deleted since it was read, or the missed owner has no UID and came back (`Exactness.CollectsOrphansUnless`).
  The pass could have seen the disturbance: UID or owners differ from those read (`Exactness.DisturbanceShows`).
  No orphan stays either way (`Collection.NoOrphanIsLeft`).
- A volume injected for a template is mounted if and only if its name was used at most once before, or its
  last user was the same claim already: injection edits the first volume of the name, mapping takes the last
  (`PodMapping.InjectedIsMounted`).
- A variable for the first container of a pod without containers is an index out of range in the source, here
  the error `NoContainers` of `Build.InjectEnv`. It occurs exactly if the policy admits variables, the pod has no
  container and the first variable names none (`Build.EnvRefused`).
- A warm pool that asks for fewer than no replicas loses every member, and then its pass indexes past the list
  and panics before it writes a status (`Reconcilers.Reconcilers.ReconcileWarmPool`).
- Pool trimming and the pool cascade go by the owner's kind and name, not its UID, and delete by name; their
  exactness is stated for a pass run alone.

## Model

| member | source | states |
|---|---|---|
| Json.MergePatchIdempotent | internal/store/patch.go:68-72 | merging a patch (RFC 7386, section 2) a second time changes nothing |
| Json.MergePatchAt | internal/store/patch.go:68-72 | path by path: where the patch has nothing the target stays, a value replaces, a null removes with all below |
| Decimal.ParseFormat | internal/store/persist.go:181-190 | a version written in decimal reads back as itself within 64 bits |
| Decimal.FormatInjective | internal/store/patch.go:101 | different versions have different texts |
| Objects.PathInjective | internal/store/store.go:135-140 | keys of slash-free namespaces are equal exactly for equal namespace and name |
| Objects.PathCollisions | internal/store/store.go:135-140 | for all strings: two objects share a key exactly if they are the same or one is the other cut at an earlier slash |
| Objects.SlashedPathsCollide | internal/store/store.go:135-140 | every object of a namespace with a slash shares its key with a different object of a shorter namespace |
| Objects.PathsTellNamespaces | internal/store/store.go:135-140 | no object of another slash-free namespace has a key of this one, if and only if this one has no slash |
| StoreRuns.ApplyKeepsInv | internal/store/store.go:175-355 | every operation, failing or not, keeps the store's invariant: contents are the replay of the log, versions are consecutive, the history is the log's capped tail; a success appends exactly one event, for its key |
| StoreRuns.RunKeepsInv | internal/store/store.go:149-155 | over every run the invariant holds and the log is only appended to, so no version is issued twice |
| StoreRuns.SameVersionIffUntouched | internal/store/store.go:149-155 | an object has the version it had at an earlier point exactly if no event since was for its key |
| StoreRuns.UpdateSucceedsIffUntouched | internal/store/store.go:268-280 | an Update carrying an earlier version succeeds exactly when no write, delete or recreation touched the key since |
| StoreRuns.AtMostOneUpdateWins | internal/store/store.go:268-273 | of two updates of one object based on one version at most one succeeds, in every run |
| StoreRuns.ObjectsLiveTheirLives | internal/store/store.go:284-319 | at every point of every run a live object's UID and creation time are its Create's, its generation is 1 plus the full writes that changed the spec, its status the last status write's |
| WriteRules.PlacesDiffer | internal/store/store.go:135-140 | two names of a type are one place exactly if they are equal and, for a namespaced type, so are the namespaces |
| WriteRules.CreateRefused | internal/store/store.go:175-204 | a Create fails, changing nothing, exactly if the type is unknown, there is no name to give, or the name is taken: each with its error |
| WriteRules.CreateFiles | internal/store/store.go:206-219 | else the caller's object is filed under a free place, field by field, with UID and creation time given where it had none, generation 1 and the next version |
| WriteRules.FullUpdateFiles | internal/store/store.go:291-319 | a full write files the caller's object field by field, but for UID, creation time and status, which stay, and the generation, which counts spec changes; no other object changes |
| WriteRules.VersionTest | internal/store/store.go:263-273 | not found exactly if nothing is stored there, conflict exactly if a version is named that is not the stored one |
| WriteRules.PatchIsUpdate | internal/store/patch.go:36-105 | a merge patch is the update with the merged document, refused as that is or if no object with a kind is left |
| WriteRules.DeleteTakes | internal/store/store.go:324-350 | delete takes the object it names and no other, or fails changing nothing |
| WriteRules.GetFinds | internal/store/store.go:233-245 | get gives what is stored under the name, and only that |
| WriteRules.EventTells | internal/store/store.go:175-350 | a success emits one event of the operation's kind, with the object it returns, at the next version; a failure none |
| WriteRules.IdentityStays | internal/store/store.go:201-203 | over every run, between two points with no deletion of it in between, what a key holds keeps its UID and creation time |
| StoreRuns.StatusWriteCommutes | internal/store/store.go:291-319 | an unconditional status write and an unconditional full write of one object give the same store in either order |
| StoreRuns.StatusWriteKeepsTheRest | internal/reconciler/sandbox.go:311-327 | a status write changes one object's status and version and nothing else, so it undoes no adoption |
| PatchTwice.PatchTwiceIsPatchOnce | internal/store/patch.go:36-105 | a merge patch that leaves name, namespace and version alone succeeds again when repeated, and changes nothing but the version; the generation stays |
| Watch.StepKeepsInv | internal/store/watch.go:36-192 | every step of writers, registrations and pumps keeps every watcher's invariant: what it received is a prefix of what it is owed, and the rest is on its way until it is dropped |
| Watch.ResumedFirst | internal/store/watch.go:92-105 | replaying the history after a retained version is replaying the whole log after it |
| WatchTheorems.DeliveredIsPrefix | internal/store/watch.go:77-192 | at every point of every behavior a watcher has received a prefix of its matching bootstrap followed by every later matching event, and all of it once nothing is on its way |
| WatchTheorems.DeliveriesOnlyGrow | internal/store/watch.go:130-180 | nothing delivered is taken back or reordered, and a watch's terms never change |
| WatchTheorems.DeliveredInOrder | internal/store/watch.go:158-179 | live events arrive in strictly increasing version, above all of the bootstrap |
| WatchTheorems.DeliveredWithoutGaps | internal/store/watch.go:158-179 | a matching event since registration, no newer than one delivered, was delivered |
| WatchTheorems.DropsOnlyWhenFull | internal/store/watch.go:43-53 | only a write that finds a full buffer closes a subscription, what is buffered stays readable, and a pump that leaves on closure has delivered all it was sent |
| WatchTheorems.SnapshotWatchFolds | internal/store/watch.go:106-127 | folding the events of a snapshot watch without selector over nothing gives the type's and namespace's contents at the last delivered version |
| WatchTheorems.DrainedSnapshotWatchIsCurrent | internal/store/watch.go:106-127 | and once drained, what List returns now |
| WatchTheorems.HistoryIsContiguous | internal/store/watch.go:36-42 | along every behavior the history is the contiguous run of versions ending at the store's |
| WatchTheorems.ListThenWatchIsCurrent | internal/store/store.go:371-391 | List at a version, then Watch from it while it is retained: the events applied to the list give the current contents, deletions included |
| WatchTheorems.FallbackMissesExactlyDeletions | internal/store/watch.go:106-117 | below the history the same holds if and only if nothing listed then was deleted since |
| Wanted.ListedExactly | internal/store/store.go:373-391 | by keys: of one namespace what is stored under its paths, of none or for a cluster-scoped type all of the type, and of these what the selector selects |
| Wanted.FirstExactly | internal/store/watch.go:92-127 | what a watch starts with: the wanted history after the version it resumes at, or an addition per wanted stored object not ruled out by the version it named |
| Wanted.OwedExactly | internal/store/watch.go:130-180 | what it is owed besides: of all events since exactly those of its type, namespace and selector |
| Wanted.DeliveredIsWanted | internal/store/watch.go:130-180 | at every point of every behavior all that was delivered is of the watch's type, namespace and selector |
| Wanted.WantedIsDelivered | internal/store/watch.go:130-180 | and once drained, all such events since registration were delivered |
| Persist.BucketNamesRoundTrip | internal/store/persist.go:157-178 | a type is read back from its bucket name exactly if group and version have no slash, and version and resource are not empty |
| Persist.BucketGVRExact | internal/apis/scheme.go:36 | a bucket name that parses is the name of what it parses to |
| Persist.ParseGVRBucket | internal/store/persist.go:157-178 | the scan for the two first slashes computes that parse |
| Persist.DiskFollowsMemory | internal/store/store.go:395-402 | after any number of writes the disk's objects and version are the store's at that point |
| Persist.WroteKeepsMatch | internal/store/store.go:395-402 | the transaction of a put or delete keeps the disk equal to the contents and version |
| WatchSystem.StoredIsTxn | internal/store/store.go:395-402 | the transaction every successful operation leaves on disk is the one its event in the log tells, so the disks of the rows around this one are the store's own |
| Persist.LoadedMatches | internal/store/persist.go:118-147 | the contents loaded from a disk of objects are what the disk holds, so a restored store starts out equal to its disk |
| Persist.RestartFromAnyPrefix | internal/store/store.go:404-422 | restoring any prefix of the transactions succeeds exactly if every object has a kind, and then gives a state the store was in, every object's version at or below the restored one |
| Persist.RestartGivesSameStore | internal/store/persist.go:118-147 | reloading after all transactions gives the same objects and version |
| Persist.LaterVersionsAreAbove | internal/store/store.go:149-155 | every version issued after a restore is above the restored one |
| Persist.BoltPersister.SaveObject | internal/store/persist.go:83-95 | one transaction: the type's bucket has the object under its key, the meta bucket the version |
| Persist.BoltPersister.RemoveObject | internal/store/persist.go:97-106 | one transaction: the key is gone if its bucket exists, the meta bucket has the version |
| Persist.BoltPersister.Load | internal/store/persist.go:118-147 | what the loops collect is the parsed buckets' contents and the stored version |
| ObjectStore.Store.FanOutLocked | internal/store/watch.go:43-53 | every open subscription of the type gets the event or, if full, is closed and dropped; sends and closes need an open channel, so none hits a closed one |
| ObjectStore.Store.EmitLocked | internal/store/watch.go:36-54 | history trimmed to the cap, log and channels extended by the event |
| ObjectStore.Store.Create | internal/store/store.go:175-219 | the heap store does what the specification says, hands out a fresh copy, and shares no stored object with anybody; its event, over an object of its own, goes to every registered channel and its transaction to disk, which stays equal to memory; a failure sends and writes nothing |
| ObjectStore.Store.Get | internal/store/store.go:233-245 | a fresh copy of what is stored, or not found |
| ObjectStore.Store.Update | internal/store/store.go:250-281 | as specified: conflict, not found, status or full merge; fresh result; stored objects unshared; event to every registered channel and transaction to disk exactly on success |
| ObjectStore.Store.Patch | internal/store/patch.go:36-105 | as specified, for merge patches; fresh result; stored objects unshared; event to every registered channel and transaction to disk exactly on success |
| ObjectStore.Store.DeleteLocked | internal/store/store.go:324-350 | as specified: the object is gone, the event carries the new version and goes to every registered channel, and the disk follows |
| ObjectStore.Store.List | internal/store/store.go:373-391 | fresh copies of exactly the matching objects, each once, with the store's version |
| ObjectStore.Store.LoadFrom | internal/store/store.go:406-422 | registered types' objects are restored, all or an error; an empty store restored from its disk at the disk's version equals it |
| WatchPump.StartWatch | internal/store/watch.go:81-127 | bootstrap and registration in one critical section are the protocol's registration step, over the history as its objects read then |
| WatchPump.Pump.TakeNext | internal/store/watch.go:145-179 | the pump's receive is the protocol's: bootstrap first, skipping what filters reject or what is covered, leaving on closure only after the buffer is empty |
| WatchPump.Pump.DeliverHand | internal/store/watch.go:151-175 | the pump's send to the client is the protocol's delivery |
| WatchPump.Pump.RemoveSub | internal/store/watch.go:182-192 | deregistration does not close the channel |
| WatchPump.EmissionIsOffer | internal/store/watch.go:43-53 | what an emission does to a channel is what the protocol's offer does to the watcher |
| WatchSystem.Perform | internal/store/store.go:175-355 | what all four operations have in common: specified result, fan-out, transaction, disk equal to memory |
| WatchSystem.Write | internal/store/watch.go:36-54 | a write on the heap, with any number of pumps, is the protocol's write step for every watcher at once; a failed one moves none |
| WatchSystem.OpenWatch | internal/store/watch.go:81-127 | a watch on the heap is the protocol's registration step and leaves the other watchers alone |
| WatchSystem.TakeNext | internal/store/watch.go:145-179 | a pump's receive is the protocol's step and touches no other watcher |
| WatchSystem.DeliverHand | internal/store/watch.go:151-175 | likewise its delivery |
| WatchSystem.RemoveSub | internal/store/watch.go:182-192 | likewise its deregistration |
| Conditions.FindSet | internal/reconciler/sandbox.go:360-369 | setting a condition changes that kind alone, and its transition time only with its status |
| Conditions.MirroringKeepsTheTransition | internal/reconciler/claim.go:104-118 | while a sandbox stays finished, any number of mirroring passes leaves the claim's Finished transition where the first put it |
| Conditions.MirrorFinds | internal/reconciler/claim.go:101-118 | after mirroring, Ready and Finished have the sandbox's status and reason, with the defaults, and move their time only with the status |
| ProtocolInv.StepKeepsInv | internal/reconciler/claim.go:44-244 | every step of claim passes, garbage collection and the rest of the world keeps the binding invariant |
| Binding.OneSandboxPerClaim | internal/reconciler/claim.go:143-188 | at every state of every interleaving no two sandboxes have one claim's UID as controller |
| Binding.TakenOverOnce | internal/reconciler/claim.go:219-243 | no sandbox is taken over twice, by one claim or two, and while it lives it stays its claim's |
| Binding.OwnersChangeByTakeoverOnly | internal/reconciler/claim.go:219-243 | a living sandbox's owners change in one way only: a claim's compare-and-swap takes it from the pool the claim looks in |
| Binding.GainsByItsOwnPassOnly | internal/reconciler/claim.go:143-188 | a claim gains a sandbox only by the swap or the creation of its own pass |
| Binding.StatusNamesTheSandbox | internal/reconciler/claim.go:119-128 | the sandbox of a live claim between passes is the one its status names |
| Expiry.ExpiredStaysExpired | internal/reconciler/claim.go:257-318 | once a pass finds a Retain claim past a deadline, in every run that leaves its lifecycle alone it stays expired, its passes only wind it down, and no sandbox comes under it |
| Expiry.NeverEarly | internal/reconciler/claim.go:257-318 | in every interleaving a pass takes a claim or a sandbox out of the store only at or after a deadline of the claim it read |
| Deadlines.ExpiredExactly | internal/reconciler/claim.go:257-277 | a claim is over exactly if a deadline has come: its shutdown time, or Finished=True's transition plus the time to live |
| Deadlines.OverAtShutdown | internal/reconciler/claim.go:263-265 | with a shutdown time alone, from that second on and not before |
| Deadlines.OverAfterTtl | internal/reconciler/claim.go:266-271 | with a time to live alone, from the transition plus that many seconds on and not before |
| Deadlines.DeadlineIsFirstFinish | internal/reconciler/claim.go:266-271 | over any number of passes over a finished sandbox the deadline is the time of the first plus the time to live |
| ClaimEnds.KeptUntilDeadline | internal/reconciler/claim.go:44-138 | before every deadline a pass keeps the claim and each sandbox under it, whatever it finds |
| ClaimEnds.EndsAtDeadline | internal/reconciler/claim.go:289-318 | from a deadline on the protocol's pass deletes the claim, or with Retain marks it and drops the sandbox its status names if it is its own |
| ClaimEnds.WoundDownTells | internal/reconciler/claim.go:289-318 | the code's winding down, told the same way, with the cascade of what is deleted |
| Collection.NoOrphanIsLeft | internal/reconciler/sandbox.go:54-64 | once deletions and dead claims' passes are over, one pass per orphan, interleaved with anything else, leaves no orphan |
| Collection.SweepCollectsExactly | internal/reconciler/sandbox.go:265-290 | sandbox passes run alone delete the orphans among the sandboxes they visit and no other |
| Collection.CollectionCanTakeALiveSandbox | internal/reconciler/sandbox.go:59-63 | interleaved, collection can delete a living claim's sandbox: a run from the empty store that does |
| Exactness.DanglingStays | internal/reconciler/sandbox.go:265-290 | an owner with a UID that is gone or was replaced is never found again |
| Exactness.CollectsOrphansUnless | internal/reconciler/sandbox.go:54-64 | in every interleaving a pass deletes a sandbox that is no orphan if and only if its owners live and it was taken over or deleted since it was read, or the missed owner has no UID and came back |
| Exactness.UndisturbedIsOrphan | internal/reconciler/sandbox.go:54-64 | with UIDs on the owners that were read, and no takeover or deletion in between, what is deleted is an orphan |
| Exactness.DisturbanceShows | internal/reconciler/sandbox.go:59-63 | a takeover or deletion in between happened exactly if UID or owners differ from those read; after a takeover the claim is the only owner, and what is deleted is an orphan exactly if this claim is gone |
| ClaimAlone.KeepsItsSandbox | internal/reconciler/claim.go:143-153 | a claim that has its sandbox keeps it, and shows its name, addresses, Ready and Finished |
| ClaimAlone.TakesTheCandidate | internal/reconciler/claim.go:193-244 | without one and without additions it takes over the head candidate, of which only owner and version change, and notes its name |
| ClaimAlone.CreatesItsOwn | internal/reconciler/claim.go:162-188 | else it creates one under its own name, with a fresh UID, itself as only owner, and what the template builds |
| ClaimAlone.TakesUpItsOwn | internal/reconciler/claim.go:173-184 | if its own sandbox has its name already it is bound again |
| ClaimAlone.StuckOnForeign | internal/reconciler/claim.go:173-183 | if a foreign sandbox has that name nothing is created and the claim says so |
| ClaimAlone.HeadIsBest | internal/reconciler/claim.go:193-211 | the candidate taken is owned by the pool by name, not being deleted, and ready if any such one is; and there is one if there is any |
| ClaimAlone.MissingIsReported | internal/reconciler/claim.go:63-86 | a missing pool or template is the reason Ready is False, and nothing else changes |
| ClaimAlone.BuildErrorIsReported | internal/reconciler/claim.go:88-92 | likewise the reason a sandbox could not be built |
| ClaimAlone.EditsAreCounted | internal/store/store.go:311-318 | editing a claim counts one generation exactly if it changes the spec |
| Reconcilers.Reconcilers.ReconcileClaim | internal/reconciler/claim.go:44-138 | the pass run alone makes exactly the protocol's calls in order; an expired claim is wound down |
| Reconcilers.Reconcilers.GetOrCreateSandbox | internal/reconciler/claim.go:143-188 | reuse, take over or create, as the protocol's steps from the lookup on |
| Reconcilers.Reconcilers.AdoptWarmSandbox | internal/reconciler/claim.go:193-244 | the retry loop wins exactly if one of five attempts is undisturbed and only status writes came before; a takeover or deletion meanwhile ends it |
| Reconcilers.Reconcilers.HandleClaimExpiry | internal/reconciler/claim.go:289-318 | Delete removes the claim with its cascade; Retain deletes only the sandbox it controls and marks the claim expired |
| Reconcilers.Reconcilers.Delete | internal/store/store.go:324-355 | the recursive delete hook terminates, and leaves exactly the contents the cascade functions give, for every kind |
| Reconcilers.Reconcilers.CleanupSandboxResources | internal/reconciler/reconcile.go:133-155 | the container goes, the template claims the sandbox controls go with their volumes, a missing claim's volume goes; a user's claim stays |
| Reconcilers.Reconcilers.CascadeClaimDelete | internal/reconciler/reconcile.go:170-186 | the named sandbox goes with its resources if the claim's UID controls it, and only then |
| Reconcilers.Reconcilers.CascadeWarmPoolDelete | internal/reconciler/reconcile.go:189-199 | all sandboxes owned by the pool's name go, each with its resources, and no other |
| Deletion.SandboxTakes | internal/reconciler/reconcile.go:129-155 | deleting a sandbox takes it, its container, its templates' claims that it controls, their volumes and those of missing claims, and nothing else: by names, for every sandbox, claim and volume |
| Deletion.ClaimTakes | internal/reconciler/reconcile.go:167-186 | deleting a claim is deleting also the sandbox its status names, or its namesake if it names none, if its UID controls it; else only the claim |
| Deletion.ClaimDeletionSpares | internal/reconciler/reconcile.go:129-186 | it spares every other sandbox, container and volume claim, and the volumes of the claims that stay; volumes of those that go are gone |
| Deletion.NothingIsLeft | internal/reconciler/reconcile.go:167-186 | in every reachable state, deleting a claim between its passes leaves no sandbox and no container under its UID |
| Deletion.PoolTakes | internal/reconciler/reconcile.go:189-199 | deleting a pool takes exactly the sandboxes that name it as owner by kind and name, with their containers and claims |
| Deletion.OthersTake | internal/reconciler/reconcile.go:157-165 | a volume claim takes its volume, a template nothing, and deleting what is not there changes nothing |
| Cascade.OneMoreDeleted | internal/reconciler/reconcile.go:194-198 | deleting sandboxes one after another leaves what deleting them together leaves, whatever names their claims share |
| Reconcilers.Reconcilers.ReconcileWarmPool | internal/reconciler/warmpool.go:36-121 | alone it leaves exactly the wanted number of members unless it lacks the template to grow; which are kept, what goes with the others, and the published counts; below 0 replicas every member goes and the pass panics |
| Reconcilers.Reconcilers.SettleWarmPool | internal/reconciler/warmpool.go:49-121 | a second pass finds the wanted number, changes no member and publishes it |
| PoolRules.TrimKeepsReady | internal/reconciler/warmpool.go:98-109 | trimming keeps min(ready, replicas) ready ones, and of two alike the older |
| PoolRules.SortForTrim | internal/reconciler/warmpool.go:100-106 | a permutation, unready first, then newest |
| Reconcilers.Reconcilers.ReconcileSandbox | internal/reconciler/sandbox.go:41-75 | the four ways of a pass and what each leaves; identity, owners and spec stay; ready only over a running container with an address that answers |
| Reconcilers.Reconcilers.ReconcileRunning | internal/reconciler/sandbox.go:104-232 | a container is created only if every claim its pod names exists and is backed, mounts only those, and publishes the server port; ready exactly if the probe of that port's host port succeeds |
| Reconcilers.Reconcilers.ReconcileSuspended | internal/reconciler/sandbox.go:77-102 | the container goes, or its state is unknown and so reported |
| Reconcilers.Reconcilers.HandleSandboxExpiry | internal/reconciler/sandbox.go:237-261 | volumes stay; Delete removes the sandbox with its cascade, Retain reports expiry |
| Reconcilers.Reconcilers.EnsureTemplateClaims | internal/reconciler/pvc.go:86-112 | claims that exist are untouched, new ones are owned by the sandbox and ask for what the first template of the name asks for; the pod gets all their volumes |
| Reconcilers.Reconcilers.BackVolumes | internal/reconciler/sandbox.go:125-148 | every claim the pod names was found and ensured, or the first missing one is reported |
| Reconcilers.Reconcilers.CreateSandboxContainer | internal/driver/fake.go:65-94 | the container runs with an address and publishes exactly the spec's ports, each on a host port of its own |
| SandboxConditions.NextIsSound | internal/reconciler/sandbox.go:86-205 | after any pass kinds are unique, and the sandbox is ready exactly if the pass found it serving, and then neither suspended nor finished |
| SandboxConditions.RunIsSound | internal/reconciler/sandbox.go:77-298 | the same over every run of passes |
| SandboxConditions.NextTells | internal/reconciler/sandbox.go:77-298 | for every outcome the value, reason, generation and transition time of Finished, Suspended and Ready; other kinds stay |
| SandboxConditions.RunFinishes | internal/reconciler/sandbox.go:181-195 | over every run a sandbox is finished exactly if the last pass that could tell found its container exited |
| SandboxConditions.RunSuspends | internal/reconciler/sandbox.go:86-97 | and suspended exactly if the last that could tell had removed it |
| SandboxPass.EndsAtItsTime | internal/reconciler/sandbox.go:64-67 | from its shutdown time on a sandbox goes with its own, or is kept, says so, and has no container, address or node |
| SandboxPass.KeptBeforeItsTime | internal/reconciler/sandbox.go:64-102 | before that it is kept; a running one keeps its container, claims and volumes; a suspended one loses its container and says so |
| SandboxPass.ShowsItsContainer | internal/reconciler/sandbox.go:175-216 | run unhindered, it has a container and shows it: finished by its exit code, ready exactly if it answers, with address and node while it runs |
| SandboxPass.TemplatesAreFound | internal/reconciler/sandbox.go:112-120 | under each template's name, unless the pod uses it twice, the container finds the template's claim, writable |
| PodMapping.MapPodSpec | internal/driver/mapping.go:48-152 | ports strictly sorted and exactly the positive declared ones with the server port; mounts those of the volumes named last; refused exactly if empty or privileged |
| PodMapping.MountsAreClaims | internal/driver/mapping.go:108-137 | every named volume a container mounts backs a claim the pod names |
| PodMapping.MountsExactly | internal/driver/mapping.go:108-145 | a mount is there exactly if some mount of the pod becomes it: the last volume of its name, its path, read-only if either says so, tmpfs for an empty directory |
| PodMapping.MountsInOrder | internal/driver/mapping.go:108-145 | in the pod's order |
| PodMapping.ServerPortIsFirst | internal/reconciler/sandbox.go:387-396 | the server port is the first container's first positive port, and the default exactly if it has none |
| PodMapping.VolumeNameInjective | internal/driver/driver.go:34-36 | within a namespace a volume's name determines its claim |
| PodMapping.InjectPodVolume | internal/reconciler/sandbox.go:400-414 | the first volume of the name is replaced, or one appended |
| PodMapping.InjectedIsMounted | internal/reconciler/sandbox.go:400-414 | the exact condition under which the injected volume is the one mounted |
| Build.MergeVct | internal/reconciler/build.go:121-142 | the index map says where each name was last put, and the result is the merge |
| Build.MergedFails | internal/reconciler/build.go:121-142 | refused always, Overrides never, Allowed exactly on a name in the base or an earlier extra |
| Build.MergedOverrides | internal/reconciler/build.go:121-142 | as a map the result is the base overridden by the extras |
| Build.MergedOrder | internal/reconciler/build.go:121-142 | base order stays, new names follow in order, each once |
| Build.MergedDistinct | internal/reconciler/build.go:121-142 | distinct names stay distinct |
| Build.InjectEnv | internal/reconciler/build.go:74-114 | the loop is the injection, with all its errors |
| Build.InjectedEnv | internal/reconciler/build.go:74-114 | if accepted each named variable has the last value given to it, every other what it had, and nothing else of the pod changes |
| Build.StopsAtFirstFault | internal/reconciler/build.go:74-114 | the loop stops at the first variable with a fault, told from the pod and the earlier variables alone, and accepts all if there is none |
| Build.EnvRefused | internal/reconciler/build.go:74-114 | each error exactly when: policy; unknown container named first; name set already or given twice to one container, under Allowed only; the index out of range for a first variable without a container's name in a pod without containers |
| Build.TargetIsFirst | internal/reconciler/build.go:82-95 | a variable goes to the first container of its name, or to the first of all |
| Build.BuildRefused | internal/reconciler/build.go:147-195 | each addition is guarded by its own policy, variables first; each reason exactly when |
| Build.BuiltIs | internal/reconciler/build.go:147-195 | what is built is the template with the claim's variables and volume claim templates, running, without an end; nothing else changes |
| ManagerKeys.KeysRoundTrip | internal/reconciler/manager.go:196-207 | a queue key gives its object back exactly if the namespace has no slash |
| ManagerKeys.KeysDiffer | internal/reconciler/manager.go:196-207 | objects of slash-free namespaces never share a queue key |
| SplitArgs.SplitArgs | runtime/split.go:27-86 | the loop equals the word grammar on every input |
| SplitArgs.FailsExactlyInsideQuotes | runtime/split.go:81-83 | it fails exactly when the input ends inside quotes |
| SplitArgs.SplitUndoesQuoting | runtime/split.go:27-86 | splitting the single-quoted, space-joined form of any list of strings gives the list back |
| Quoting.SplitReadsEveryWriting | runtime/split.go:27-86 | splitting gives back the words however each is written, in any mixture of bare text, both quotes and backslashes, with any spaces before, between and after |
| Quoting.BackslashStays | runtime/split.go:52-61 | between double quotes a backslash before any other byte stands for itself |
| Quoting.LastBackslashDropped | runtime/split.go:70-75 | a backslash that ends the input is dropped |

## Left out

- Objects of more than one namespace in the reconcilers: they never look across namespaces.
- The link from the reconcilers' decoded records to the store's JSON objects: decoding is taken as the identity, and the write rules are stated for both.
- Binding.OneSandboxPerClaim: assumes that only claim passes write a claim's UID as a sandbox's owner or a claim's status, that other writes keep a sandbox's owners, and that no pass stops midway.
- StoreRuns.RunKeepsInv: runs are of operations in slash-free namespaces and of patches that leave name and namespace alone; the source checks neither.
- Persist.DiskFollowsMemory: assumes transactions that succeed, and types whose bucket names parse; so does the disk's part in ObjectStore.Store.Create, Update, Patch and DeleteLocked.
- WatchTheorems.SnapshotWatchFolds: for watches without selectors; a label selector does not see an object stop matching.
- Reconcilers.Reconcilers.Delete: assumes a driver that finds and removes containers and volumes; errors of removal, which the source ignores, are not modelled.
- WatchSystem.Write: assumes that no receiver alters a delivered event's object (`Intact`).
- ObjectStore.Store.Patch: merge patches only; JSON Patch and server-side apply decoding are library calls.
- ObjectStore.Store.DeleteLocked: the hook it calls afterwards is modelled with the reconcilers.
- Conditions.FindSet: the condition helpers of the Kubernetes library are stated as its documentation gives them; their code is not part of this model.
- SandboxConditions.NextIsSound: the reason texts that the agent-sandbox API defines are not part of this model and stand in by name; messages are shortened.
- Wrap-around of the 64-bit version counter: versions are unbounded, except where they are parsed.
- JSON numbers other than integers, and the JSON text itself.
- Parsing of selectors: a selector is any predicate on objects; views are rebuilt for watches without one.
- Re-registering a type with another scope.
- UUIDs and name suffixes: a UID is a fresh one, a generated name any unused one.
- bbolt, fsync timing and the flush loop: a transaction is atomic, and a crash goes back to an earlier one.
- Labels, owner maps, requeue delays, rate limits and the work queue, whose rule that one key is never processed twice at a time is an assumption of the protocol.
- Secure defaults, pod metadata, resources, users, DNS and image pulling in the built sandbox and container: copied fields with no interplay.
- The PVC and template passes, node port events, HTTP facade, router, port forwarding, file handlers and command line.
