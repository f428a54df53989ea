# Harnest: a verified model

Harnest compiles, packs, serves and evaluates agents. These Dafny modules model the parts
of it in which one wrong step would corrupt something shared, and prove what those parts
promise. `dafny verify dfyconfig.toml` checks the whole project.

* **Agent environments** (`EnvironmentModel`, `EnvironmentProtocol`, `EnvironmentSafety`,
  `EnvironmentTheorems`, `EnvironmentLeases`, `EnvironmentPublications`,
  `EnvironmentChoices`, `EnvironmentMigration`, `EnvironmentLocked`, `EnvironmentAgreement`,
  `Closure`). Many commands share one project's `.harnest` directory: a lock made with
  `mkdir`, two dependency slots with one alternate each, legacy directories, publication pointers that are renamed into place, and lease
  files that are released without the lock. Every directory listing, read, rename, removal
  and install effect is one step of a state machine; processes interleave, fail and crash
  freely. `EnvironmentLocked` is the same section as the loops of one command, and
  `EnvironmentAgreement` connects the two.
* **Deployment pool** (`DeployPool`, `DeployPoolTheorems`). Producer, unbuffered channel,
  workers, the fail-fast flag that is set before cancellation is issued, and an error slot
  per bundle.
* **Runtime packs** (`PackPaths`, `PackManifest`, `PackWindows`, `PackTree`, `PackScan`,
  `PackStaging`, `PackStore`, `PackStoreSafety`, `PackLaunch`, `PackStoreTheorems`,
  `PackBuild`). Path cleaning, manifest validation and sealing, scanning, building and
  checking trees, and the content-addressed store with hard links, copy fallback, renames,
  symbolic links, the manifest write and racing launchers, inode by inode.
* **Digests and the runtime lock** (`CompiledDigest`, `CompiledDigestTheorems`,
  `BundleDigest`, `RuntimeLock`, `RuntimeLockSeams`, `RuntimeLockTheorems`,
  `SyncFixpoint`, `SyncInputs`, `FingerprintInputs`). The byte streams that are hashed, why
  they are unambiguous, the committed lock's printer and parser, the fixpoint that a
  successful synchronisation reaches, and exactly which edits end it.
* **Editor settings** (`JsoncMask`, `JsoncLex`, `JsoncSplice`, `Scanner`, `JsonGrammar`,
  `JsonTrees`, `JsonLayout`, `VsCodeSettings`, `VsCodeRewrite`, `VsCodeInsert`,
  `VsCodeInterpreter`, `VsCodeMethods`). The in-place scanners for JSON with comments, which
  texts are settings, and the byte splice that sets one value.
* **Reload supervisor** (`Reload`) and **tool events** (`ToolPairing`,
  `ToolPairingTheorems`). Lease ownership, rollback and debouncing over whole runs; and the
  pairing of calls with results over shared mutable records.

`Basics` holds what several modules need. Text is a Dafny string with one character per
byte. SHA-256 is injective: an object name carries the bytes it was computed from and a
digest carries its stream.

Where a promise is false as stated, the model keeps the code as it is and states when the
promise holds:

* A publication pointer records the right fingerprint exactly if the inputs at the state
  where they were read, and the lock at the state where it was read, equal those at the state
  where the fingerprint was sealed
  (`PublicationExactIff`, `PublishedSlotMatchesFingerprint`; a failing run is
  `EditUnderInstallIsMisrecorded`).
* The shared store stays true to its names in every run exactly if the name under which a
  launcher writes its manifest does not lead to a file of the store that it can write or make
  (`StoreStaysTrueIff`; a failing manifest is that of `TakenNameRuinsStore`).
* A published tree verifies exactly if entries that share an object share a size, no entry
  is named, or lies below, the manifest file's own name, and the manifest text is at most
  64 MiB (`PublishedMatchesIff`); `Validate` checks none of the three
  (`UnsharedSizesNeverVerify`, `DanglingNeverVerifies`).
* A replacement leaves a process of the reload supervisor without its lease exactly if it
  gives up a lease and some process under it is left: the server, if its stop failed, or one
  that an earlier failed stop left (`ReplacementExposesIff`, and over the supervisor's own
  steps `Poll` and `Finish`; a failing run is `EarlierProcessOutlives`).
* The environment's fingerprint tells any one edit from none; several edits at once only as
  long as no text holds a NUL byte (`ReuseEndsIff`, `StreamDeterminesInputs`; colliding
  files are those of `NulTextsCollide`).
* The compiled digest is unambiguous because hashes are hexadecimal, not because they have
  64 characters (`ArbitraryHashIsAmbiguous`).
* The lock round trip returns the resolver's text exactly if its seams are clean
  (`RenderHereIff`, `RenderElsewhereIff`); that it holds neither marker is not enough
  (`MarkerFreeIsNotEnough`).
* Inserting the editor setting keeps the file readable exactly if it is not a lone comma
  between braces (`InsertionAddsMember`).

## Model

| member | source | states |
|---|---|---|
| `EnvironmentModel.ClassifyAgrees` | `cmd/harnest/environment_slots.go:18-26` | The classified slot, legacy and unmanaged names are a faithful reading of the text tests on directory names; legacy names are sixteen hexadecimal digits. |
| `EnvironmentModel.CurrentIffPublished` | `cmd/harnest/environment_slots.go:108-128` | The pointers that migration keeps are exactly those that a publication can have written: a family's own file naming one of its two slots. |
| `EnvironmentSafety.EntryChangeIsSafe` | `cmd/harnest/environment.go:565-600` | Changing a directory that no lease protects and no pointer names keeps every recorded lease, every publication and every other complete install. |
| `EnvironmentSafety.LoosenKeepsLocal` | `cmd/harnest/environment_prune.go:52-58` | The stability fact: whatever a process in the locked section relies on survives the steps of all others, because outside the lock leases can only disappear. |
| `EnvironmentSafety.CreateLeaseKeeps` | `cmd/harnest/environment_prune.go:32-63` | Creating the lease file keeps everything, also when a release removed the empty lease directory between its creation and the file; that case fails safely. |
| `EnvironmentSafety.StepKeepsInv` | `cmd/harnest/environment.go:152-180` | One step of any process or of the user keeps the invariant of the whole project: mutual exclusion, distinct leases, recorded leases, serving pointers and every process's own assumptions. |
| `EnvironmentTheorems.RunKeepsInv` | `cmd/harnest/environment.go:152-180` | The invariant holds in every state of every run, for any number of processes, failures and crashes. |
| `EnvironmentTheorems.SectionIsExclusive` | `cmd/harnest/environment.go:459-468` | At most one process is between taking and dropping the lock directory. |
| `EnvironmentLeases.LeaseAppears` | `cmd/harnest/environment_prune.go:32-63` | A lease file appears only in the locked section, and what it protects is recorded then. |
| `EnvironmentLeases.LeasedContentsNeverChange` | `cmd/harnest/environment_slots.go:41-65` | A directory with a live lease keeps exactly the contents it had when the lease was created: no rebuild clears it, no prune or migration deletes it, in any interleaving. |
| `EnvironmentLeases.LeasedNameIsOnlyFilled` | `cmd/harnest/environment_prune.go:113-143` | Also for a lease on a name where no directory was: while it is live no prune and no migration takes anything away there; only an installation that was already behind its check can fill the name. |
| `EnvironmentLeases.LeasedDirectoryIsFrozen` | `cmd/harnest/environment_slots.go:41-65` | Once a leased directory is there and no such installation is under way, its contents stay the same for as long as the lease is live. |
| `EnvironmentLeases.HolderRunsCompleteInstall` | `cmd/harnest/environment.go:151-180` | A command that selected its interpreter under the lock holds a lease file that is on disk, on a complete install, until it releases it. |
| `EnvironmentChoices.ReleaseIsOpen` | `cmd/harnest/environment_prune.go:52-63` | A holder can give up its lease in every reachable state, and takes no other lease with it. |
| `EnvironmentPublications.PublishedSlotIsComplete` | `cmd/harnest/environment.go:470-513` | Whatever install step fails or crashes, a current publication pointer names a slot that holds a complete install. |
| `EnvironmentPublications.PublishedSlotMatchesFingerprint` | `cmd/harnest/environment.go:602-621` | Any current pointer in any reachable state stems from such an installation, and is exact if and only if that read and sealed the same inputs and lock, or stands since the start and was exact then. |
| `EnvironmentPublications.CalmRunRecordsExactly` | `cmd/harnest/environment.go:602-621` | In particular every publication is exact if nobody edits the inputs while an installation carries what it read. |
| `EnvironmentPublications.PublicationExactIff` | `cmd/harnest/environment.go:470-513` | In every run behind every publication there are states where the process last read the authored inputs and the committed lock, and one where it sealed the fingerprint; the pointer is exact, in every later state in which it stands, if and only if for its profile the inputs and the lock read are those sealed. |
| `EnvironmentPublications.EditUnderInstallIsMisrecorded` | `cmd/harnest/environment.go:470-513` | A complete run in which the user edits the inputs while packages are installed, and that ends with a pointer that is not exact: the new fingerprint for the old install. |
| `EnvironmentTheorems.ActWritesOwn` | `cmd/harnest/environment_slots.go:41-65` | A step changes at most the one directory its stage names; only invalidation, publication and migration touch pointers, and only a publication writes one, naming its own slot. |
| `EnvironmentTheorems.FailedInstallKeepsServing` | `cmd/harnest/environment_slots.go:56-63` | An installation into another slot that fails or dies leaves the serving pointer untouched, however the other processes interleave. |
| `EnvironmentTheorems.UserEntriesSurvive` | `cmd/harnest/environment_prune.go:200-209` | Links, files and unmanaged directories below the store are never touched in any run. |
| `EnvironmentTheorems.StepLeavesNoDangling` | `cmd/harnest/environment_slots.go:67-93` | No single step, and so no crash point, leaves a pointer to a legacy directory that the step deleted. |
| `EnvironmentTheorems.LegacyPointersNeverDangle` | `cmd/harnest/environment_slots.go:67-128` | In every run a pointer to a missing legacy directory was there from the start. |
| `EnvironmentChoices.AlternateIffLeased` | `cmd/harnest/environment_slots.go:28-39` | In every run an installation goes to the alternate slot of its profile's family if and only if a command leases the primary one; leases that cannot be read end it. |
| `EnvironmentChoices.ChoiceIsOpen` | `cmd/harnest/environment_slots.go:28-39` | And that choice is open in every state in which it is made. |
| `EnvironmentChoices.NothingInUseIsReplaced` | `cmd/harnest/environment_slots.go:41-55` | In every run an installation goes on to replace its slot only while neither the slot nor any legacy directory is leased or stands for something of the user's. |
| `EnvironmentChoices.BusyMeansObstructed` | `cmd/harnest/environment_slots.go:41-55` | And it gives up there only if one of them is. |
| `EnvironmentChoices.ClearedSlotIsUnpublished` | `cmd/harnest/environment_slots.go:56-63` | In every run, when an installation starts to clear its slot, its family's pointer is gone, or can be read and does not name the slot. |
| `EnvironmentChoices.ServingPointerStays` | `cmd/harnest/environment_slots.go:56-128` | In every run a pointer that serves a slot stays as it is, through migrations, prunes and installations of the other family, until an installation of its own family withdraws it, which it does only for the slot it replaces, or publishes. |
| `EnvironmentChoices.ReuseServesWanted` | `cmd/harnest/environment.go:332-355` | In every run an environment that is reused without an installation is the published one of the profile's own family, complete, and recorded for exactly the fingerprint that the command computed from the inputs at an earlier moment. |
| `EnvironmentChoices.ReuseIsOpen` | `cmd/harnest/environment.go:332-355` | And such an environment can be reused in every state in which it is there. |
| `EnvironmentChoices.RestoreIffFound` | `cmd/harnest/environment.go:182-200` | In every run an installation that is made frozen on the way is the restoration of a complete environment of the own family that was found. |
| `EnvironmentChoices.RestoreIsOpen` | `cmd/harnest/environment.go:182-200` | And such a restoration is open in every state in which the environment is found. |
| `EnvironmentMigration.MigrationMovesLink` | `cmd/harnest/environment_slots.go:95-106` | From the step that deals with the editor link to the end of the migration, unless the user repoints it: a link to a slot of the same family or to a legacy directory leads to the selected slot, any other is as it was, and none leads to a directory that the migration removes. |
| `EnvironmentMigration.LegacyLeftWasKept` | `cmd/harnest/environment_slots.go:77-93` | In every run, when a migration is through with the legacy directories, each one that is left was leased or was no directory at some moment of it. |
| `EnvironmentMigration.MigrationEndsInLease` | `cmd/harnest/environment_slots.go:67-93` | A migration that is through goes on to lease the selected slot if and only if the command asked for a lease. |
| `EnvironmentLocked.PrunedKeepsExactly` | `cmd/harnest/environment_prune.go:113-143` | Pruning keeps exactly the unmanaged, user-owned, published, editor-linked and leased entries, and everything if no pointer exists or any is malformed. |
| `EnvironmentLocked.InvalidatedWithdrawsSlot` | `cmd/harnest/environment_slots.go:56-63` | Preparing a replacement withdraws the family's pointer if it names the slot or cannot be read, and keeps every current pointer that names another directory. |
| `EnvironmentLocked.Project.CurrentAgentEnvironments` | `cmd/harnest/environment_prune.go:162-181` | Deletion is authorised exactly if some pointer exists and all can be understood; the names collected are those the pointers publish. |
| `EnvironmentLocked.Project.ListEntries` | `cmd/harnest/environment_prune.go:126-130` | The listing holds every entry exactly once. |
| `EnvironmentLocked.Project.StaleAgentEnvironments` | `cmd/harnest/environment_prune.go:113-143` | The list collected holds exactly the stale directories. |
| `EnvironmentLocked.Project.PruneLocked` | `cmd/harnest/environment_prune.go:105-111` | The directories left are exactly the specified ones; of a removal that fails, only that directory's remains are left over. |
| `EnvironmentLocked.Project.PrepareReplacement` | `cmd/harnest/environment_slots.go:41-65` | Success means that the slot and every legacy directory is a directory without leases, and the slot's pointer is withdrawn; otherwise one that is not is named and nothing has changed. |
| `EnvironmentLocked.Project.RemoveLegacyStates` | `cmd/harnest/environment_slots.go:108-128` | Success keeps exactly the current pointers; an unreadable pointer stops the sweep without losing a current one. |
| `EnvironmentLocked.Project.RetireLegacy` | `cmd/harnest/environment_slots.go:77-92` | Exactly the unleased legacy directories are removed; the first removal that fails stops the sweep and is reported, and it fails exactly if one of them cannot be removed. |
| `EnvironmentLocked.Project.Migrate` | `cmd/harnest/environment_slots.go:67-106` | On success a link to a slot of the selected family or to a legacy directory leads to the selection, any other link is unchanged and none leads to a legacy directory; pointers go before directories, and directories are touched only after every obsolete pointer is gone, and no others than the retirable ones. |
| `EnvironmentAgreement.ProtocolPrunes` | `cmd/harnest/environment_prune.go:105-143` | The loop and the small-step protocol agree: a sequence of protocol steps without failures completes a prune in some state if and only if that state is what the loop computes. |
| `DeployPoolTheorems.StepKeepsInv` | `engine/deploy.go:94-154` | Every step of producer, workers and caller keeps the pool invariant, including the fail-fast gap: once the flag is up, the context is cancelled or a live worker is about to cancel it. |
| `DeployPoolTheorems.RunKeepsInv` | `engine/deploy.go:78-92` | The invariant holds in every state of every schedule, for any worker count. |
| `DeployPoolTheorems.JoinErrors` | `engine/deploy.go:156-167` | The loop joins exactly the recorded errors in discovery order and adds the context error only if fail-fast did not cause it. |
| `DeployPoolTheorems.RecordedExactly` | `engine/deploy.go:156-167` | The recorded errors name each failed bundle once, in strictly ascending discovery order. |
| `DeployPoolTheorems.NilMeansAllDeployed` | `engine/deploy.go:78-92` | The result is nil if and only if every bundle was deployed exactly once with success, after one successful compilation if bundles are compiled and none if they are not, and nothing was cancelled. |
| `DeployPoolTheorems.CompiledBeforeDeployed` | `engine/deploy.go:94-129` | In every reachable state of every schedule a bundle for which the deployer was called has been compiled exactly once with success, or the pool has no compiler and it was never called. |
| `DeployPoolTheorems.CancellationIsReported` | `engine/deploy.go:156-167` | A finished pool reports the context error if and only if the caller cancelled and fail-fast recorded no failure. |
| `DeployPoolTheorems.StoppedStartsNothing` | `engine/deploy.go:94-154` | A worker that asks after the pool was told to stop starts no compilation and no deployment of the job in its hands. |
| `DeployPoolTheorems.ParallelismIsBounded` | `engine/deploy.go:78-92` | At no moment are more bundles in progress than the parallelism or the number of bundles allows. |
| `DeployPoolTheorems.EveryBundleAttempted` | `engine/deploy.go:94-167` | With fail-fast off and no cancellation every bundle is attempted and the result lists exactly the failures. |
| `DeployPoolTheorems.ReceivesIff` | `engine/deploy.go:143-154` | A bundle leaves the producer in a step if and only if a worker receives it in that step. |
| `DeployPoolTheorems.ReceivedIff` | `engine/deploy.go:143-154` | Over runs of any length, a bundle has left the producer if and only if some worker has received it. |
| `DeployPoolTheorems.HandedOutOnce` | `engine/deploy.go:143-154` | No bundle is received twice, by whichever workers, and the deployer is called for it at most once. |
| `DeployPoolTheorems.AllGoneMeansCancelled` | `engine/deploy.go:129-154` | If every worker has left while the producer still holds jobs, the context is cancelled. |
| `DeployPoolTheorems.NeverDeadlocks` | `engine/deploy.go:78-154` | In every reachable state the pool has finished or can take a step of its own. |
| `DeployPoolTheorems.EveryRunEnds` | `engine/deploy.go:78-154` | Every schedule ends: each step shrinks a measure that the start bounds. |
| `PackPaths.SafePathIff` | `internal/agentpack/manifest.go:56-61` | The cleaning test accepts exactly the non-empty sequences of ordinary components without forbidden bytes. |
| `PackPaths.RelArrives` | `internal/agentpack/objects.go:237-238` | Walking a relative path between two places of a tree arrives and never leaves the tree on the way. |
| `PackManifest.LinkFitsIff` | `internal/agentpack/manifest.go:114-121` | The text test on a link accepts exactly the links whose walk, component by component, stays inside the tree and ends below its root. |
| `PackManifest.ValidateFile` | `internal/agentpack/manifest.go:96-112` | The loop over parents decides whether the file fits after the earlier ones: safe, strictly larger, no earlier ancestor, sound body. |
| `PackManifest.Validate` | `internal/agentpack/manifest.go:63-94` | The loop over files accepts exactly the manifests that fit the platform-independent rules, which the next row spells out. |
| `PackManifest.AcceptedIff` | `internal/agentpack/manifest.go:63-121` | In terms of components and walks: accepted are exactly the manifests of the format with their own digest and at least one file, whose entries are ordinary paths with a size and an object or a link that stays inside, strictly ordered, none below another in either direction, with the interpreter as an executable object among them. |
| `PackManifest.AcceptedIsUnambiguous` | `internal/agentpack/manifest.go:73-112` | An accepted manifest is strictly sorted and no path is an ancestor of another in either direction, although only earlier entries are compared. |
| `PackManifest.AcceptedLinksStayInside` | `internal/agentpack/manifest.go:114-121` | Every accepted link stays inside the tree at every component it passes. |
| `PackManifest.ManifestBuilder.Seal` | `internal/agentpack/manifest.go:41-54` | Sealing sorts inputs and files, keeps them as a multiset, and binds the digest to the sorted core. |
| `PackManifest.SealIgnoresOrder` | `internal/agentpack/manifest.go:41-54` | Any ordering of the same inputs and of the same distinct-path files seals to the same identity. |
| `PackWindows.ValidateWindowsTree` | `internal/agentpack/platform.go:67-83` | Accepts exactly the link-free trees of permitted names on which upper-casing is injective over all files and ancestors. |
| `PackWindows.SafeComponentIff` | `internal/agentpack/platform.go:45-66` | A component is refused exactly if it ends in a blank or a dot, holds a forbidden or control character, or spells a device's or a port's name in any case, followed by blanks and an extension. |
| `PackWindows.ValidateManifest` | `internal/agentpack/manifest.go:63-83` | The whole validation: the common rules, and for a Windows manifest the case-alias and device-name rules too. |
| `PackTree.ContainedFile` | `internal/agentpack/materialize.go:132-151` | A path is contained exactly if it is safe and every parent is a real directory. |
| `PackTree.ReadManifest` | `internal/agentpack/manifest.go:134-152` | Returns exactly the manifest that is there, can be read, and passes the validation of its own platform. |
| `PackTree.VerifyEntry` | `internal/agentpack/materialize.go:89-104` | One entry is accepted exactly if it is there with the recorded bytes, mode (0555 or 0444) and size, or link text, whatever substituted parents lead to. |
| `PackTree.VerifyEntries` | `internal/agentpack/materialize.go:89-104` | All entries are accepted exactly if each is there. |
| `PackTree.RejectExtraFiles` | `internal/agentpack/materialize.go:108-130` | Accepts exactly if every non-directory is the manifest file or one of its paths. |
| `PackTree.VerifyTree` | `internal/agentpack/materialize.go:80-106` | Accepts exactly the trees whose non-directory entries are the manifest's paths plus the manifest file, each as recorded. |
| `PackTree.MaterializeFiles` | `internal/agentpack/materialize.go:52-78` | Succeeds exactly if every first use of an object verifies, and then the staging tree holds exactly the manifest's entries. |
| `PackTree.BuiltVerifiesIff` | `internal/agentpack/materialize.go:80-106` | A tree with the manifest's entries and text verifies if and only if every regular entry names the hash of some bytes and their size, and the text is short enough to be read back. |
| `PackTree.OneCheckSuffices` | `internal/agentpack/materialize.go:52-78` | If entries that share an object share a size, one verification per object makes every recorded size right. |
| `PackTree.MaterializedTreeVerifies` | `internal/agentpack/materialize.go:27-50` | With that hypothesis a freshly built tree passes the check every later launcher runs. |
| `PackTree.UnsharedSizesNeverVerify` | `internal/agentpack/materialize.go:52-78` | Without it: a manifest that is accepted and materialises, and no tree built from it ever verifies. |
| `PackBuild.GatherFiles` | `cmd/harnest/runtime_pack.go:268-284` | Scanning the trees in turn and adding the single files yields exactly the files of all of them, once each, and fails exactly if one cannot be packed. |
| `PackBuild.SealedPackAcceptedIff` | `cmd/harnest/runtime_pack.go:268-284` | The sealed pack of any separate trees and files is accepted if and only if it holds a file, every kept name can be named in a manifest, and the interpreter is one of the executables. |
| `PackBuild.SealedPackLaunches` | `cmd/harnest/runtime_pack.go:266-298` | From trees to a pack and back: launchers can publish an accepted pack, and in whatever any launcher publishes every kept file has its bytes and executable bit and the later check passes. |
| `PackScan.ScanTree` | `internal/agentpack/objects.go:180-239` | The walk keeps exactly the files outside skipped directories, once each, and fails exactly if one of them cannot be packed. |
| `PackScan.KeptIff` | `internal/agentpack/objects.go:185-218` | In terms of the path alone: a file is kept exactly if it is no byte code and no directory above it is a cache or, below the interpreter, the installer's. |
| `PackScan.ExecutableIff` | `internal/agentpack/objects.go:93-104` | A file counts as executable exactly if its owner, its group or the others may execute it. |
| `PackScan.ScannedLinkFits` | `internal/agentpack/objects.go:220-239` | The relative text computed for a scanned link always passes the manifest's link test and leads to the resolved place. |
| `PackScan.RoundTripKeepsFile` | `internal/agentpack/objects.go:93-113` | A kept regular file comes back with its bytes and executable bit at its path below the prefix. |
| `PackScan.RoundTripVerifies` | `internal/agentpack/materialize.go:80-106` | What is built from a sealed scan passes the launcher's check; scanned sizes are always right. |
| `PackScan.ScanHasNoAncestors` | `internal/agentpack/objects.go:180-209` | A scan never puts one entry below another and never names a path twice. |
| `PackStoreSafety.StepKeepsInv` | `internal/agentpack/objects.go:115-167` | One step of store, link, copy, rename, symbolic link, manifest write, clean-up or crash keeps the store and staging invariant and changes only what is the process's own. |
| `PackStoreSafety.WriteKeeps` | `internal/agentpack/manifest.go:154-165` | Opening the manifest's name in a complete staging tree, through whatever links stand there, keeps the invariant unless it leads to a file of the store that the launcher can write or make. |
| `PackStoreTheorems.ObjectNamesAreTrue` | `internal/agentpack/objects.go:60-113` | In every reachable state an object name refers to the bytes and the mode it names, unless the manifest can be written to a file of the store. |
| `PackStoreTheorems.StoreStaysTrueIff` | `internal/agentpack/materialize.go:27-50` | For every accepted manifest: the store stays content-addressed in all runs if and only if it is not the case that staging gets as far as the manifest and its own name, through all links and out of the staging tree too, leads to a file of the store that the launcher can write or make. |
| `PackStoreTheorems.TakenNameRuinsStore` | `internal/agentpack/manifest.go:154-165` | An accepted one-entry manifest for which a launcher with all rights writes the manifest over an object of the shared store. |
| `PackStoreTheorems.SharedFilesNeverChange` | `internal/agentpack/objects.go:115-167` | A closed file is never written again under any of its names, an object name once there stays, and so does the publication, under the same condition. |
| `PackStoreTheorems.PublishedTreeIs` | `internal/agentpack/materialize.go:27-50` | If no entry takes the manifest file's name, the published tree is, at every later moment and whoever won the race, exactly the tree of the manifest: entries, links, manifest file and nothing else. |
| `PackStoreTheorems.MaterializesIff` | `internal/agentpack/materialize.go:27-50` | Every accepted manifest can be published by some run if and only if the first entry to name each object has its size and the place its own name leads to can be written. |
| `PackStoreTheorems.LosersReturnIff` | `internal/agentpack/materialize.go:43-48` | A launcher that loses the race returns the published tree if and only if the manifest has the three properties of the next row. |
| `PackStoreTheorems.PublishedMatchesIff` | `internal/agentpack/materialize.go:80-106` | What any run publishes passes the complete check of every later launcher if and only if entries that share an object share a size, none takes the manifest file's name, and the text is at most 64 MiB. |
| `PackStoreTheorems.DanglingNeverVerifies` | `internal/agentpack/manifest.go:154-165` | An accepted manifest with a dangling link of the manifest file's name: a run publishes it, and the published tree fails the check. |
| `CompiledDigest.Aggregate.WriteField` | `engine/compile.go:810-818` | One length-framed field is appended to the stream. |
| `CompiledDigest.CompiledManifestDigest` | `engine/compile.go:758-808` | The nested loops hash exactly the specified stream of records and fields. |
| `CompiledDigestTheorems.FieldCancels` | `engine/compile.go:810-818` | A framed field can be told from whatever follows it. |
| `CompiledDigestTheorems.RecordIsNoField` | `engine/compile.go:715-732` | A file record with a hexadecimal hash can never be read as the interface field, whatever the file is called. |
| `CompiledDigestTheorems.DigestDeterminesArtifact` | `engine/compile.go:758-808` | For NUL-free paths and hexadecimal hashes, equal digests mean equal files, interface flag, extensions, tasks, crons and dependencies, and conversely. |
| `CompiledDigestTheorems.ArbitraryHashIsAmbiguous` | `engine/compile.go:722-727` | With 64 arbitrary characters as the hash two different artifacts share a stream: the hexadecimal check is needed. |
| `BundleDigest.CollectDigestFiles` | `engine/digest.go:47-60` | The walk lists exactly the regular files that count, once each. |
| `BundleDigest.CountsIff` | `engine/digest.go:17-60` | In terms of the path alone: a regular file counts exactly if neither its name nor that of a directory above it belongs to tools, secrets, byte code or profile locks. |
| `BundleDigest.HashBundleFile` | `engine/digest.go:62-100` | One frame of big-endian lengths, path and bytes is appended. |
| `BundleDigest.DigestDirectory` | `engine/digest.go:31-45` | The digest is that of the frames of exactly the files that count, strictly sorted by path. |
| `BundleDigest.FramesInjective` | `engine/digest.go:91-100` | The framed stream determines the list of paths and contents. |
| `BundleDigest.SameDigestIff` | `engine/digest.go:31-107` | Two bundles have the same digest if and only if the same files count and hold the same bytes. |
| `RuntimeLockTheorems.SplitDocument` | `cmd/harnest/environment_runtime_lock.go:233-257` | Splitting a printed lock returns its digest and body, and refuses it exactly if the body lacks a single wheel marker. |
| `RuntimeLockTheorems.MarkerFoundIff` | `cmd/harnest/environment_runtime_lock.go:142-167` | Splitting the printed body at the wheel marker finds the one that was put there, and no other, if and only if none appears within the pieces of text or at their seams. |
| `RuntimeLockTheorems.RenderElsewhere` | `cmd/harnest/environment_runtime_lock.go:259-283` | A lock made in one project and rendered in another is the resolver's text with this wheel and every project prefix changed, if the seams of the text are clean. |
| `RuntimeLockTheorems.RenderElsewhereIff` | `cmd/harnest/environment_runtime_lock.go:259-283` | For file URIs that condition is exact. |
| `RuntimeLockTheorems.RenderHereIff` | `cmd/harnest/environment_runtime_lock.go:142-167` | Rendering in the same project with the same wheel returns the resolver's text if and only if the text holds neither marker, no wheel marker short of its last one or two underscores stands before the wheel's URI or a project prefix, and no such project marker before a project prefix. |
| `RuntimeLockTheorems.RenderHere` | `cmd/harnest/environment_runtime_lock.go:142-167` | In particular for every text without the markers' shared part. |
| `RuntimeLockTheorems.MarkerFreeIsNotEnough` | `cmd/harnest/environment_runtime_lock.go:142-167` | Text that holds neither marker can still fail the round trip: a stump of the wheel marker before the URI completes to a marker. |
| `SyncFixpoint.Checkout.ResolveLock` | `cmd/harnest/environment_runtime_lock.go:50-93` | Succeeds exactly if the resolver answered with a text that names the wheel once and every input can be digested; the lock then carries that digest and the text with markers. A failure changes nothing. |
| `SyncFixpoint.Checkout.PrepareLock` | `cmd/harnest/environment_runtime_lock.go:25-48` | A frozen run changes no file and succeeds exactly if a lock is there; an unfrozen one succeeds exactly if it could be resolved and read back, and leaves it up to date. |
| `SyncFixpoint.Checkout.RecordFramework` | `cmd/harnest/environment_framework.go:65-75` | Succeeds exactly if the pin is recorded or need not change, which it never may in a frozen run; only the project lock changes. |
| `SyncFixpoint.Checkout.RefreshMetadata` | `cmd/harnest/environment_runtime_lock.go:285-310` | Succeeds exactly if a lock is there and every input can be digested; frozen validation then accepts the lock, and its body is the one that was there. |
| `SyncFixpoint.Checkout.Build` | `cmd/harnest/environment.go:494-511` | From resolution to refresh: it succeeds exactly if the lock could be prepared, the packages synchronised and checked, the pin recorded and the lock refreshed; frozen validation then accepts the lock, and only the two lock files changed. |
| `SyncFixpoint.Checkout.Publish` | `cmd/harnest/environment.go:602-621` | Succeeds exactly if every input can be digested; the published fingerprint is that of the files as they now are. A failure changes nothing. |
| `SyncFixpoint.Checkout.Install` | `cmd/harnest/environment.go:470-513` | Success needs every foreign tool to have succeeded and settles lock and publication together; a frozen run succeeds exactly then. After a failure no publication names a slot that was touched. |
| `SyncFixpoint.Checkout.Sync` | `cmd/harnest/environment.go:152-200` | A reusable environment that works is returned and nothing changes, and one that cannot be probed ends the run; any other success is an installation into the primary slot, or the alternate one if that is leased, in which every tool succeeded, and leaves an accepted lock and a reusable environment whose interpreter is there. |
| `SyncFixpoint.Checkout.SyncTwice` | `cmd/harnest/environment.go:494-512` | The fixpoint: after a successful unfrozen install, frozen validation accepts the lock and the next sync returns the same environment and leaves files, publications and interpreters as they were between the two. |
| `SyncFixpoint.OwnLockIsNoInput` | `cmd/harnest/environment_runtime_lock.go:169-201` | The lock's header does not depend on the lock itself. |
| `SyncFixpoint.HeaderKeepsLength` | `cmd/harnest/environment_runtime_lock.go:285-310` | A refreshed lock is as long as before, so one that could be read still can be. |
| `SyncFixpoint.HeaderIsStaleIff` | `cmd/harnest/environment_runtime_lock.go:203-231` | Recording the framework pin after the lock was written makes the header stale if and only if the pin changed, unless the hash collides on the two streams: the refresh is needed. |
| `SyncInputs.ReuseEndsIff` | `cmd/harnest/environment.go:261-323` | After one edit of the runtime, framework, mode, wheel, compile requirements or MCP flag, or after writing or removing any one file, a reusable environment stays reusable if and only if the edit left the value as it was or touched a file that is neither a dependency file nor the pin nor the profile's lock, unless the hash collides on the two streams. |
| `SyncInputs.LockIsStaleIff` | `cmd/harnest/environment_runtime_lock.go:169-231` | The same for the committed lock and frozen validation: an edit of anything but the lock itself makes it stale if and only if it changed something the lock was resolved from. |
| `FingerprintInputs.ProfileSwitchEndsReuse` | `cmd/harnest/environment.go:261-323` | Switching to the other profile of the same slot always ends the reuse, whatever bytes the inputs hold. |
| `FingerprintInputs.StreamDeterminesInputs` | `cmd/harnest/environment.go:261-323` | For several edits at once: among texts without NUL, with the same dependency files and wheels of one length, two fingerprint streams are equal if and only if configuration, profile, requirements, flag and every file are. |
| `FingerprintInputs.ReusedForSameInputs` | `cmd/harnest/environment.go:332-355` | So an environment published for one set of inputs is reused for another if and only if they are the same, unless the hash collides on the two streams. |
| `FingerprintInputs.NulTextsCollide` | `cmd/harnest/environment.go:301-323` | For any two dependency files there are texts with NUL bytes, two pairs of them different, that have one stream. |
| `JsoncMask.EndString` | `cmd/harnest/environment_vscode.go:171-183` | The scan finds the end of a string token, escapes included, or the end of the text. |
| `JsoncMask.MaskLineComment` | `cmd/harnest/environment_vscode.go:146-153` | Exactly the bytes up to the line break are blanked in place. |
| `JsoncMask.MaskBlockComment` | `cmd/harnest/environment_vscode.go:155-169` | Exactly the comment is blanked in place, line breaks kept; an unfinished one changes nothing. |
| `JsoncMask.MaskCommentsInPlace` | `cmd/harnest/environment_vscode.go:124-144` | The in-place scanner computes the specified masking, or fails where it does. |
| `JsoncMask.NextToken` | `cmd/harnest/environment_vscode.go:204-215` | The next byte that is not blank. |
| `JsoncMask.MaskCommasInPlace` | `cmd/harnest/environment_vscode.go:185-202` | The in-place scanner computes the specified masking. |
| `JsoncMask.CommentsExactly` | `cmd/harnest/environment_vscode.go:124-169` | A byte becomes a space if and only if it is in a comment and no line break; every other byte, length and offset is kept. |
| `JsoncMask.CommasExactly` | `cmd/harnest/environment_vscode.go:185-202` | Only a comma outside strings whose next non-blank byte closes a container changes, and it becomes a space. |
| `JsoncMask.FailsIffUnfinished` | `cmd/harnest/environment_vscode.go:155-160` | Masking fails exactly if a block comment outside strings is not finished. |
| `JsoncMask.MaskIsClean` | `cmd/harnest/environment_vscode.go:124-144` | No comment opener is left outside strings, and masking again changes nothing. |
| `JsoncLex.LexMasked` | `cmd/harnest/environment_vscode.go:124-144` | Masking comments leaves every token at its offset. |
| `JsoncLex.LexCommas` | `cmd/harnest/environment_vscode.go:185-202` | Masking trailing commas removes exactly those tokens and moves no other. |
| `JsoncLex.DecoderOffsets` | `cmd/harnest/environment_vscode.go:85-96` | What the decoder reads has the file's own offsets. |
| `JsonGrammar.ValueLocal` | `cmd/harnest/environment_vscode.go:95-103` | A value is recognised by its own tokens alone. |
| `JsonGrammar.EntriesSound` | `cmd/harnest/environment_vscode.go:66-69` | The members read, written out again, are the tokens that were read. |
| `JsonGrammar.EntriesComplete` | `cmd/harnest/environment_vscode.go:66-69` | Every list of members that are recognised one by one is read back; which ones are is the matter of the next rows. |
| `JsonTrees.ValueIffWritten` | `cmd/harnest/environment_vscode.go:66-69` | The tokens recognised as a value are exactly those of a tree of nulls, Booleans, numbers, strings, arrays and objects, with numbers given by sign, integer part, fraction and exponent, and strings by their characters and escapes. |
| `JsonTrees.EntriesIffWritten` | `cmd/harnest/environment_vscode.go:66-69` | The tokens read as the top-level object are exactly those that an object is written with. |
| `JsonTrees.ObjectReadsBack` | `cmd/harnest/environment_vscode.go:66-69` | Reading what an object is written with returns its members in order. |
| `JsonLayout.SettingsIffObjectText` | `cmd/harnest/environment_vscode.go:60-69` | A file is accepted if and only if it is one object with any blanks, line comments and block comments around its tokens and commas in front of closing marks. |
| `JsonLayout.ObjectTextIsRead` | `cmd/harnest/environment_vscode.go:60-69` | And then exactly the members of that object are read. |
| `VsCodeSettings.ReplacedTokens` | `cmd/harnest/environment_vscode.go:111-115` | Replacing the bytes of one value by a string replaces just that token range and moves nothing in front of it. |
| `VsCodeRewrite.RewrittenFrom` | `cmd/harnest/environment_vscode.go:85-122` | After all stale values are replaced the file reads as the same members with exactly those values new. |
| `VsCodeInsert.InsertionAddsMember` | `cmd/harnest/environment_vscode.go:73-82` | Inserting adds one member behind the others; the file stays readable if and only if it is not a lone comma between braces. |
| `VsCodeInterpreter.ReplacingSets` | `cmd/harnest/environment_vscode.go:85-122` | After replacing, every occurrence of the key is the new value, the members are the same in the same order, and a second call reports no change. |
| `VsCodeInterpreter.InsertingSets` | `cmd/harnest/environment_vscode.go:60-83` | After inserting, the key is set behind the other members and a second call reports no change; for the lone comma the result is unreadable. |
| `VsCodeInterpreter.SetIsStable` | `cmd/harnest/environment_vscode.go:85-122` | A file is left alone if and only if the setting is there and right in every occurrence, where `null` counts as the empty text. |
| `VsCodeInterpreter.OnlyValuesChange` | `cmd/harnest/environment_vscode.go:92-121` | Old and new text are the same stretches around the replaced values: every other byte is preserved. |
| `VsCodeMethods.LastIndexByte` | `cmd/harnest/environment_vscode.go:73` | The last occurrence of a byte. |
| `VsCodeMethods.LastByte` | `cmd/harnest/environment_vscode.go:74` | The last byte that is not blank. |
| `VsCodeMethods.AroundClosing` | `cmd/harnest/environment_vscode.go:73-78` | In a readable file the last closing brace byte is the object's own, and the byte before it tells whether a separator is needed. |
| `VsCodeMethods.ReplaceInterpreter` | `cmd/harnest/environment_vscode.go:85-122` | The copying loop computes the splice over exactly the stale value ranges and reports a change exactly if there are any. |
| `VsCodeMethods.SetInterpreter` | `cmd/harnest/environment_vscode.go:60-83` | The whole rewriter computes the specified update on every input, and refuses exactly the files that are not the text of one object with comments and trailing commas. |
| `Reload.ObservedFits` | `cmd/harnest/reload.go:352-364` | After an observation the candidate is the digest of the successful polls since it was noticed, and a rebuild is due if and only if for three hundred milliseconds, and since the last attempt, all successful polls saw one digest other than the baseline. |
| `Reload.Supervisor.Acquire` | `cmd/harnest/environment_prune.go:32-63` | A fresh lease is held from now on. |
| `Reload.Supervisor.Release` | `cmd/harnest/environment_prune.go:52-58` | A held lease is released once. |
| `Reload.Supervisor.ServePython` | `cmd/harnest/reload.go:161-174` | A managed selection holds one new lease; a failure holds none. |
| `Reload.Supervisor.BundleAndPython` | `cmd/harnest/reload.go:127-159` | Every path holds exactly the lease of the selection it returns, and the bundle returned is the one loaded last, with the interpreter selected after it changed. |
| `Reload.Supervisor.CloseCompiler` | `cmd/harnest/reload_compiler.go:185-206` | Closing releases exactly the compiler's lease. |
| `Reload.Supervisor.CompilerFor` | `cmd/harnest/reload_compiler.go:90-154` | A compiler of the wanted identity is reused or started with its own lease; a failure leaves none. |
| `Reload.Supervisor.Compile` | `cmd/harnest/reload_compiler.go:54-88` | A custom interpreter never uses the warm compiler; a damaged exchange closes it; success means the right compiler accepted. |
| `Reload.Supervisor.Prepare` | `cmd/harnest/reload.go:100-125` | Success adds exactly one artifact and one lease; failure leaves both as they were. |
| `Reload.Supervisor.Start` | `cmd/harnest/reload.go:176-204` | Only a generation whose lease is held and whose artifact is there is ever started. |
| `Reload.ReplacementExposesIff` | `cmd/harnest/reload.go:263-303` | A replacement goes on after a failed stop: whatever processes are left from before, all run under held leases afterwards if and only if they did before and the replacement does not give up the lease of a process that is left, be it the one whose stop failed now or one left by an earlier failed stop. |
| `Reload.EarlierProcessOutlives` | `cmd/harnest/reload.go:263-328` | Two replacements: a failed stop, a rollback beside the old process, and then a replacement whose own stops succeed but that leaves the old process without its lease. |
| `Reload.ReplacementIsSole` | `cmd/harnest/reload.go:263-303` | If every stop succeeds there is never more than the one observed process. |
| `Reload.Supervisor.Replace` | `cmd/harnest/reload.go:263-328` | The old lease and artifact survive until the replacement is committed; a rollback starts a protected generation; exactly the current generation's lease remains, and the server processes are those of the specified replacement. |
| `Reload.Supervisor.Exchange` | `cmd/harnest/reload.go:263-328` | After a replacement every process runs under a held lease if and only if all ran under the current lease before and no process that is left loses it. |
| `Reload.Supervisor.Rebuild` | `cmd/harnest/reload.go:244-261` | One attempt is recorded; a failed build leaves the current generation serving. |
| `Reload.Supervisor.Poll` | `cmd/harnest/reload.go:233-261` | A rebuild begins if and only if for three hundred milliseconds, and since the last attempt, all successful polls saw one digest other than the baseline; a digest that just failed is never attempted next; every process runs under a held lease afterwards if and only if it did before and no replacement exposed one. |
| `Reload.Supervisor.Finish` | `cmd/harnest/reload.go:206-231` | The end of the loop stops the last process and releases exactly the current generation's lease; afterwards no process is without its lease if and only if none was before and none under that lease is left. |
| `Reload.Supervisor.Run` | `cmd/harnest/reload.go:206-231` | Whatever ends the loop, exactly the current generation's lease is released; if every stop succeeds, no process is left. |
| `Reload.Supervisor.Begin` | `cmd/harnest/reload.go:66-97` | The first generation is leased and running, or nothing is held. |
| `Reload.Supervisor.Serve` | `cmd/harnest/reload.go:66-98` | In the end every lease ever acquired has been released exactly once, over every run, and no server process is left if every stop succeeds. |
| `ToolPairing.Activity.AddCall` | `src/harnest/_eval_capture_runtime.py:296-300` | The records, shared by list and index, stand for the next abstract state. |
| `ToolPairing.Activity.Search` | `src/harnest/_eval_capture_runtime.py:321-324` | The first open record of the name, in list order. |
| `ToolPairing.Activity.AttachResult` | `src/harnest/_eval_capture_runtime.py:314-330` | Writing through the shared record stands for the next abstract state. |
| `ToolPairing.ToolActivity` | `src/harnest/_eval_capture_runtime.py:289-311` | The loop over shared records computes the pairing. |
| `ToolPairingTheorems.ActivitiesAreOpened` | `src/harnest/_eval_capture_runtime.py:289-330` | The activities are exactly the calls and orphan results, in order; nothing is removed, reordered or renamed. |
| `ToolPairingTheorems.CallsAreKept` | `src/harnest/_eval_capture_runtime.py:296-300` | Every call is there in order with its own name and arguments. |
| `ToolPairingTheorems.IdsAreLatest` | `src/harnest/_eval_capture_runtime.py:299-300` | The index holds, for each id, the activity of the latest call with it. |
| `ToolPairingTheorems.ExplicitResultGoesToLatest` | `src/harnest/_eval_capture_runtime.py:319-330` | A result with an id goes to the latest call with that id and changes nothing else; without such a call it is an orphan. |
| `ToolPairingTheorems.ImplicitResultGoesToEarliest` | `src/harnest/_eval_capture_runtime.py:314-330` | A result without an id answers the earliest activity without a result that its name does not rule out, of any name if it has none, and changes nothing else; it is an orphan if and only if there is none. |
| `ToolPairingTheorems.FirstOpenIsEarliest` | `src/harnest/_eval_capture_runtime.py:321-324` | The search finds the earliest open call of the name, or of any name. |
| `ToolPairingTheorems.PairingIsQueueing` | `src/harnest/_eval_capture_runtime.py:289-330` | On id-free streams with named results the pairing is one first-in first-out line per name. |

## Left out

- Liveness of the environment lock: a crash leaves the lock directory behind and later commands report busy; only safety is claimed.
- The editor link that an explicit `env sync` writes after dropping the lock: it is a free act of the user in the protocol.
- Publication pointers that name a directory outside `environments` or an unmanaged name count as malformed; pointers that are symbolic links, and the temporary files behind atomic renames, are not modelled.
- Discovery and validation before the deployment pool starts, and the deployer and compiler themselves: each call is a success or a failure.
- Hosts running Windows: `SafePath` is the check of other hosts; Windows manifests are covered with `strings.ToUpper` as a parameter. On Windows hosts scanning flattens links and permissions differ.
- The JSON text of manifests is a pair of functions; what is needed of it is that decoding undoes encoding. Go's encoder replaces bytes that are no valid UTF-8, so for names with such bytes neither that nor the injective identity holds.
- PackBuild.SealedPackLaunches: the rewriting of console scripts before the scan and the text of the build report are not modelled; the report is one of the single files.
- PackStoreTheorems.ObjectNamesAreTrue: `VerifyObject`'s status check and read are one step, as is `verifyTree` over the published tree, and nobody but Harnest writes to the store.
- PackStoreTheorems.StoreStaysTrueIff: what lies above a staging tree is a parameter that says, for each walk out of it, whether it ends nowhere, at a foreign file, at an object's name or at another link to an object; only the manifest's own name is walked, the links themselves are contained lexically.
- EnvironmentPublications.PublicationExactIff: the framework pin and the refreshed lock header that an unfrozen installation writes after its resolution do not count as changes of the inputs.
- PackStoreTheorems.PublishedMatchesIff: temporary files are always removed when their publication ends; one that cannot be removed would be an extra file in the published tree.
- I/O errors of the sequential pack and digest methods.
- BundleDigest.DigestDirectory: files do not change while they are hashed, and lengths fit in 64 bits.
- Catalogues of compiled-artifact checks other than the record metadata: checkpoint ownership, cron fields, extension overlap.
- SyncFixpoint.Checkout.Sync: whether the slot is leased or obstructed is given; migration and leasing are in the environment protocol and are not repeated.
- SyncInputs.ReuseEndsIff: an edit of the compile requirements is between lists without NUL bytes, which no valid requirement holds; the same goes for `LockIsStaleIff`.
- RuntimeLockTheorems.RenderHereIff: for wheel URIs that start with `file:` and end in `.whl`, and project URIs that start with `file:`, all without the markers' shared part.
- Package resolution, installation and framework probing, process launching, HTTP and registry access: foreign calls whose outcome is a parameter.
- VsCodeMethods.SetInterpreter: the JSON library is a token grammar with its string coding as a parameter; its nesting limit is not modelled, and the space characters it trims beyond JSON's four cannot stand outside strings in a readable file.
- VsCodeInterpreter.ReplacingSets: for an interpreter whose JSON text decodes to it again.
- Reading and writing the settings file, its size limit and its permissions.
- Reload.Supervisor.Poll: a source digest is never the empty text, as every bundle digest starts with `sha256:`.
- Reload.Supervisor.Replace: a failed stop is one whose process may still run; signals and time limits behind it, and diagnostics, are not modelled. Each start, startup watch, stop and compiler exchange is an outcome given to the supervisor.
- Pruning of served artifacts, which deletes asynchronously outside its lock and promises nothing about artifacts served elsewhere.
- ToolPairing.ToolActivity: whether a result looks like an error, and the text of names and values, are given with the event.
