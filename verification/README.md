# Verified model of the evidence protocol's core

The repository is a small evidence protocol. Receipts are canonicalised, hashed and batched into
Merkle trees; an action passes a single-use gate, is claimed durably, recorded, observed and
reconciled; fixtures are published through a leased destination directory; anchors are kept in an
on-chain registry. This project models the parts with the most state and proves what they promise,
for all inputs, all runs and all interleavings. `dafny verify dfyconfig.toml` checks it.

How the parts are modelled:

- **Merkle batches** (`MerkleTree`, `MerkleBatch`, `MerkleContents`). Hashes are symbolic: `LeafOf` and `NodeOf` are free
  constructors, which is what the two hash domains and the fixed-width fields amount to. The level loop
  with proofs appended in place is a method over an array of proofs, proved equal to a recursive tree.
- **Canonical text** (`CanonicalText`, `CanonicalDecoder`, `CanonicalPayload`, `CanonicalShape`). The
  printer is proved against a decoder written from section 7 of RFC 8259, and its text shown to be the
  shortest one that the decoder reads as the same value; NFC is any function on strings (idempotent where
  that matters).
- **Durable claim store** (`DurableClaimStore`, `DurableClaimSafety`, `DurableClaimTheorems`,
  `DurableClaimProgress`, `DurableClaimCompletion`, `DurableClaimFailures`, `DurableClaimOutcomes`). A state machine: each
  file-system call of any process is one step, which may fail before or after taking effect; directory
  entries and file contents have a volatile and a durable side; a call may die anywhere, and a power
  loss ends all calls and forgets whatever was not synced.
- **Single-use gate** (`SingleUseGate`, `SingleUseGateSafety`, `SingleUseGateHistory`,
  `SingleUseGateOutcomes`). Any number of `consume` calls, cut at the clock callback (which may re-enter), the observer and the downstream; and
  a class with the same transitions.
- **Destination lease** (`DestinationLease`, `LeaseTheorems`, `LeasePublication`, `LeaseObject`). An undo
  log over a file tree with object identities. `DestinationLease` has the steps, with arbitrary changes
  by others between them; `LeaseObject.Lease` is the object itself, whose every change is such a step.
- **Bounded capture** (`PlainData`). A recursive copy with a shared budget, on heaps that may share
  objects or contain cycles.
- **Duplicate-key scanner** (`KeyScanner`, `KeyScannerExact`, `KeyScannerJson`, `KeyScannerLanguage`),
  **execution recorder** (`ExecutionRecorder`, `ExecutionRecorderHistory`), **one-shot observer** (`ObserverProtocol`) and **evidence registry**
  (`EvidenceRegistry`).

Two promises turn out to hold only under a condition, which is then proved to be exact:

- A lease takes a new directory's identity from the first `lstat` after `mkdir`
  (`scripts/pom-rx-v01-fixture-destination-internals.mjs:73-89`). If somebody replaces the directory by a
  file or directory of theirs before that look, rollback removes the replacement
  (`ReplacedDirectoryIsRemoved`). As long as that does not happen, the lease only ever removes what it
  made (`FaithfulRemovesOwn`); and in a lease that can still be rolled back no rollback, whatever others
  do meanwhile, can remove anything else if and only if it has not happened (`OnlyOwnObjectsRemoved`).
  A replacement of another kind is never removed, and files do not have this gap: their identity comes
  from the open descriptor.
- Success of `claim` or `complete` implies that the record is durable; the converse fails: either may
  report an I/O error after its record has become permanent (`FailedClaimMayBeDurable`,
  `FailedCompletionMayBeDurable`). Whether a given failed or dead call may yet turn out to be recorded
  can be read from the directory: it may if and only if the published name leads to that call's own file
  (`FailureLeavesOpen`). Without a power loss, that is so if and only if its link call did not fail before
  taking effect (`InPlaceIffLinked`, `OpenIffLinked`). A replay has left nothing behind
  (`ReplayLeavesNothing`).

## Model

| member | source | states |
|---|---|---|
| `MerkleTree.StoredProofFolds` | sdk/python/swisstokint_proof.py:402-424 | at every level of a tree of any size, the stored path of any node folds to the root and is as long as the tree is high |
| `MerkleTree.HeightIsCeilLog` | sdk/python/swisstokint_proof.py:402-424 | the height is the base-two logarithm of the leaf count, rounded up |
| `MerkleTree.HeightBound` | sdk/python/swisstokint_proof.py:375-377 | at most 10,000 leaves give a height of at most 14 |
| `MerkleTree.RootBindsCommitments` | sdk/python/swisstokint_proof.py:396-424 | two lists of pairwise distinct commitments, of any lengths, with equal roots are the same list in the same order |
| `MerkleTree.RepeatedLastSharesRoot` | sdk/python/swisstokint_proof.py:402-424 | without the distinctness test the root is ambiguous: repeating the last of an odd number of commitments keeps it |
| `MerkleTree.RootsAgreeExactly` | sdk/python/swisstokint_proof.py:402-424 | the whole ambiguity: any two lists, with or without repetitions, share a root if and only if they pad to the same full row |
| `MerkleTree.PathsToRoot` | sdk/python/swisstokint_proof.py:444-460 | a path leads from a commitment to the root if and only if the commitment is in the list and the path is a stored one, up to the side of a step whose sibling is the node itself |
| `MerkleContents.LeavesInOrder` | sdk/python/swisstokint_proof.py:398-424 | read from left to right, the lowest row of a root holds the leaf hashes of the commitments in their order, and after them only repetitions |
| `MerkleBatch.AppendStep` | sdk/python/swisstokint_proof.py:408-412 | exactly the proofs of the given leaves get the step appended |
| `MerkleBatch.PairAt` | sdk/python/swisstokint_proof.py:404-422 | one pair becomes one parent with the right descendants, and each leaf below it gets the sibling it needs |
| `MerkleBatch.PairLevel` | sdk/python/swisstokint_proof.py:403-423 | the next level's nodes still partition the leaves, and every proof is one step longer, with the right sibling |
| `MerkleBatch.BuildTree` | sdk/python/swisstokint_proof.py:398-424 | the level loop ends with the root and the stored path of every leaf |
| `MerkleBatch.Build` | sdk/python/swisstokint_proof.py:375-441 | the batch, or the error of the first failing check, is the one specified for the receipts |
| `MerkleContents.BatchHolds` | sdk/python/swisstokint_proof.py:379-441 | an accepted batch holds exactly the fields of the given receipts, each as often as given, with indexes from zero, the leaf hash of each commitment, and a root whose lowest row begins with these leaf hashes |
| `MerkleContents.BatchInOrder` | sdk/python/swisstokint_proof.py:393 | the leaves stand in ascending order of time and, at the same time, of identifier, both by code point |
| `MerkleContents.RefusedExactly` | sdk/python/swisstokint_proof.py:376-396 | which lists of receipts are refused with which error, said of the list as it came: empty, too long, a bad receipt, a shared identifier, a shared commitment, in this order |
| `MerkleBatch.Verify` | sdk/python/swisstokint_proof.py:444-460 | accepts exactly well-formed proofs of at most 32 steps that fold from the leaf to the root |
| `MerkleContents.VerifierClimbs` | sdk/python/swisstokint_proof.py:444-460 | the verifier accepts exactly well-formed paths that lead from the leaf to the root, seen from the upper end, each step putting its hash on the side that it names |
| `MerkleBatch.StoredProofsVerify` | sdk/python/swisstokint_proof.py:398-441 | every proof of every accepted batch verifies against its root and has at most 14 steps |
| `MerkleBatch.VerifierExact` | sdk/python/swisstokint_proof.py:444-460 | for every built batch, the verifier accepts a proof if and only if it is the stored proof of a leaf with that commitment, up to the side of a self-sibling |
| `MerkleBatch.BatchRootBinds` | sdk/python/swisstokint_proof.py:396-424 | two accepted batches with one root have the same commitments and proofs in the same order |
| `MerkleBatch.OrderIndependent` | sdk/python/swisstokint_proof.py:379-441 | any two permutations of the same receipts are both refused or give the identical batch |
| `CanonicalText.PrintIsTextOfNorm` | sdk/python/swisstokint_proof.py:97-111 | printing a value is writing out its normal form (NFC strings, entries sorted by key) |
| `CanonicalDecoder.DecodeText` | sdk/python/swisstokint_proof.py:97-111 | the text of any value followed by anything that does not continue a number decodes to that value and leaves the rest |
| `CanonicalDecoder.PrintedTextDecodes` | sdk/python/swisstokint_proof.py:97-111 | a decoder recovers the normal form from the printed text, whatever delimiter follows |
| `CanonicalDecoder.PrintAlikeIffNorm` | sdk/python/swisstokint_proof.py:97-111 | two values print alike if and only if they have the same normal form |
| `CanonicalPayload.NormIffSame` | sdk/python/swisstokint_proof.py:97-111 | normal forms agree if and only if the values are equal up to NFC and key order, defined without sorting |
| `CanonicalPayload.PrintAlikeIffSame` | sdk/python/swisstokint_proof.py:97-111 | two payloads print alike if and only if they are equal up to NFC and key order |
| `CanonicalPayload.NormOfNorm` | sdk/python/swisstokint_proof.py:97-111 | normalising twice is normalising once |
| `CanonicalPayload.CanonicalTextIsFixed` | sdk/python/swisstokint_proof.py:97-111 | decoding canonical text and printing again gives the same text |
| `CanonicalShape.PrintedKeysAscend` | sdk/python/swisstokint_proof.py:108-111 | read by any reader, the printed text has strictly ascending keys, by code point, in every object at any depth |
| `CanonicalShape.CanonicalIsShortest` | sdk/python/swisstokint_proof.py:97-111 | of all texts that are read as the same value, the canonical one is the shortest, and another of its length differs only by capital hexadecimal digits |
| `CanonicalShape.SensitiveInAnyDress` | sdk/python/swisstokint_proof.py:63-93 | a key is refused exactly if it is empty, too long, has another character, or is a sensitive word with capitals, points, hyphens or underscores put in |
| `CanonicalPayload.Validate` | sdk/python/swisstokint_proof.py:68-94 | the walk with the shared budget accepts exactly values whose nodes pass their checks, within the depth limit and the budget, and spends one unit per node |
| `CanonicalPayload.ValidateItems` | sdk/python/swisstokint_proof.py:85-88 | the same for the elements of a list |
| `CanonicalPayload.ValidateEntries` | sdk/python/swisstokint_proof.py:90-94 | the same for the entries of an object, with its key rules |
| `CanonicalPayload.CanonicalizePayload` | sdk/python/swisstokint_proof.py:118-123 | gives the canonical text exactly for objects that are safe, at most 8 deep, at most 1,000 nodes and at most 16 KiB of text |
| `DurableClaimStore.ValidRecordsAreMade` | core/gate/reference-durable-claim-store.mjs:128-211 | the validators accept exactly what the makers write, a terminal record only for its own claim |
| `DurableClaimSafety.NextInv` | core/gate/reference-durable-claim-store.mjs:213-268 | every step of every call, every process death, write-back and power loss keeps the invariant: published names lead to whole synced records, holders are exclusive, successes are durable |
| `DurableClaimTheorems.AtMostOneClaim` | core/gate/reference-durable-claim-store.mjs:402-436 | over every run with crashes and power losses, at most one claim of a capability ever returns success |
| `DurableClaimTheorems.ClaimSurvives` | core/gate/reference-durable-claim-store.mjs:402-436 | a successful claim's directory and complete record are on the medium then and after anything that follows |
| `DurableClaimTheorems.LaterClaimsRefused` | core/gate/reference-durable-claim-store.mjs:409-416 | after it, every other claim of the capability is refused at its first step, whatever authorization it carries, and never gets to write |
| `DurableClaimTheorems.CompletionSurvives` | core/gate/reference-durable-claim-store.mjs:438-470 | a successful completion's terminal record, with its outcome, survives everything, and no other call ever completes the capability; that the outcome is the one asked for is the next row's |
| `DurableClaimOutcomes.ResultsWereAsked` | core/gate/reference-durable-claim-store.mjs:402-470 | in every run, a claim that succeeded was asked for with this capability and authorization, and a completion that succeeded was asked for by its claim's open handle with this very outcome |
| `DurableClaimOutcomes.ToldIsDurable` | core/gate/reference-durable-claim-store.mjs:402-470 | in every run and ever after, an open claim's record is on the medium, and so is the terminal record of a completion that returned, with the outcome its caller was told |
| `DurableClaimOutcomes.RecordsSayWhatWasAsked` | core/gate/reference-durable-claim-store.mjs:402-470 | in every run, whatever fails, a claim record that can be read or is on the medium says field by field what the claiming call was asked for, and a terminal record what its claim's handle was asked to complete it with |
| `DurableClaimTheorems.InspectionExact` | core/gate/reference-durable-claim-store.mjs:365-400 | an inspection returns the abstract state that held at its last read, though its reads are not atomic; it fails only by a failed read or another authorization's claim, never on a torn, corrupt or unbound record |
| `DurableClaimOutcomes.ReportedToTheHolder` | core/gate/reference-durable-claim-store.mjs:387-400 | in every run, an inspection reports a claim or its outcome only under the authorization that holds the claim, and an outcome only as it was asked for |
| `DurableClaimOutcomes.OthersAreRefused` | core/gate/reference-durable-claim-store.mjs:387-394 | the good read of the claim ends an inspection with the binding error if and only if another authorization holds the claim, and otherwise leads on |
| `DurableClaimOutcomes.QuietInspection` | core/gate/reference-durable-claim-store.mjs:365-400 | left alone, an inspection with good reads answers after at most five of them with the abstract state, or with the binding error for another's claim |
| `DurableClaimOutcomes.InspectionsOnlyRead` | core/gate/reference-durable-claim-store.mjs:365-400 | no step of an inspection changes the disk, another call or a success |
| `DurableClaimTheorems.InspectionsNeverGoBack` | core/gate/reference-durable-claim-store.mjs:365-400 | without a power loss in between, an inspection that ends later never reports an earlier state |
| `DurableClaimTheorems.SuccessIsVisible` | core/gate/reference-durable-claim-store.mjs:383-400 | after a successful claim or completion the abstract state is at least reserved, or exactly the outcome, power losses or not |
| `DurableClaimTheorems.FailedClaimMayBeDurable` | core/gate/reference-durable-claim-store.mjs:258-263 | for every capability and authorization, a claim that returned an error may have become permanent |
| `DurableClaimProgress.ReplayLeavesNothing` | core/gate/reference-durable-claim-store.mjs:409-416 | a claim refused as a replay has left no file and no temporary name on the disk, in any run |
| `DurableClaimOutcomes.ErrorsHaveReasons` | core/gate/reference-durable-claim-store.mjs:402-470 | in every run, a claim is refused as a replay only where it found its capability's directory, and a claim or completion fails otherwise only by a system call of its own that reported a failure |
| `DurableClaimFailures.FailureLeavesOpen` | core/gate/reference-durable-claim-store.mjs:225-268 | for every claim or completion, in every run, that failed, was refused or died: some continuation has its record on the medium if and only if its own link is in place at that moment; otherwise nothing that follows ever records it |
| `DurableClaimFailures.InPlaceIffLinked` | core/gate/reference-durable-claim-store.mjs:242-252 | the link is in place only if the call took its link step with effect, and without a power loss that is enough |
| `DurableClaimFailures.OpenIffLinked` | core/gate/reference-durable-claim-store.mjs:225-268 | so without a power loss a failed or dead call may yet be recorded if and only if its link call did not fail before taking effect |
| `DurableClaimFailures.FailedCompletionMayBeDurable` | core/gate/reference-durable-claim-store.mjs:438-470 | for every capability, authorization and outcome, a completion that returned an error may have become permanent |
| `DurableClaimProgress.DecidedByTheDirectory` | core/gate/reference-durable-claim-store.mjs:409-428 | among any other calls, a claim none of whose system calls fails is refused if and only if the capability's directory exists when it makes its own; otherwise nothing keeps it from success |
| `DurableClaimProgress.EachStepAdvances` | core/gate/reference-durable-claim-store.mjs:225-268 | each good system call of an admitted claim brings it one nearer to success, which is the eighth |
| `DurableClaimCompletion.CompletionAdvances` | core/gate/reference-durable-claim-store.mjs:438-470 | in every run, each good system call of a completion brings it one nearer to success, which is the eighth and records the outcome |
| `DurableClaimCompletion.CompletionFailsOnlyByIo` | core/gate/reference-durable-claim-store.mjs:438-470 | over every run with failures and power losses, a completion fails only with an I/O error: its branches for a missing, corrupt or foreign claim and for an existing terminal record are never taken |
| `SingleUseGate.Gate.SampleGateClock` | core/gate/reference-single-use-gate.mjs:305-313 | a reading is accepted exactly if it is an instant not before the high-water mark, which it becomes |
| `SingleUseGate.Gate.IssueAuthorization` | core/gate/reference-single-use-gate.mjs:315-329 | a capability is issued exactly for a lifetime of 1 second to 5 minutes that ends within the witness's |
| `SingleUseGate.Gate.Consume` | core/gate/reference-single-use-gate.mjs:371-378 | the reservation is the step that starts a call |
| `SingleUseGate.Gate.AfterClock` | core/gate/reference-single-use-gate.mjs:380-414 | both clock cuts are the clock step, with rejection or forwarding |
| `SingleUseGate.Gate.AfterObserver` | core/gate/reference-single-use-gate.mjs:388-404 | the observer cut is the observer step |
| `SingleUseGate.Gate.AfterDownstream` | core/gate/reference-single-use-gate.mjs:416-425 | the downstream cut is the completion step |
| `SingleUseGateSafety.NextInv` | core/gate/reference-single-use-gate.mjs:335-426 | every step, re-entered or interleaved in any way, keeps ownership, time bounds and single forwarding |
| `SingleUseGateSafety.AtMostOnce` | core/gate/reference-single-use-gate.mjs:335-426 | over every run each capability reaches the downstream at most once |
| `SingleUseGateSafety.ExactlyOneOwner` | core/gate/reference-single-use-gate.mjs:335-345 | a capability being validated or consumed belongs to exactly one live call |
| `SingleUseGateSafety.StaleBranchesUnreachable` | core/gate/reference-single-use-gate.mjs:347-369 | the unexpected-state branches of reject, begin and complete are never taken |
| `SingleUseGateSafety.SentExactly` | core/gate/reference-single-use-gate.mjs:254-281 | every downstream call carries an observation equal to the authorization in its three fields, with issued <= t1 <= t2 < expiry <= witness expiry and t2 - t1 < 300,000 ms |
| `SingleUseGateHistory.SentProvenance` | core/gate/reference-single-use-gate.mjs:371-426 | every downstream call carries the very observation its own call received, after that call started on this capability and between its two recorded clock samples |
| `SingleUseGateHistory.SecondClockDecides` | core/gate/reference-single-use-gate.mjs:406-416 | a corollary of the definitions: the second sample forwards the call, adding exactly this execution, if and only if it is timely; otherwise the capability is rejected, and never as not yet valid |
| `SingleUseGateHistory.ForwardedIffDeserved` | core/gate/reference-single-use-gate.mjs:371-426 | among any other calls and re-entries, a call is forwarded if and only if its capability was available, both samples were timely when taken and the observation matches; what is forwarded is that observation with those samples |
| `SingleUseGateOutcomes.EndsExactly` | core/gate/reference-single-use-gate.mjs:335-425 | in every run, a step ends a call with an outcome if and only if it is that outcome's cause, each cause spelled out: the ten outcomes from a missing capability to a returned or failed downstream |
| `SingleUseGateOutcomes.EndedIffCaused` | core/gate/reference-single-use-gate.mjs:335-425 | a call has ended with an outcome if and only if the outcome's cause has happened to it, and stays so |
| `SingleUseGateOutcomes.CapabilityTells` | core/gate/reference-single-use-gate.mjs:335-425 | a capability is available exactly as long as no call uses it; afterwards exactly one does, and the state tells how far that call has come: consumed with success only if its downstream returned, with an error only if it failed |
| `SingleUseGateOutcomes.BindingsWereIssued` | core/gate/reference-single-use-gate.mjs:305-329 | every capability carries the binding and witness expiry it was issued with, within the lifetime bounds; the clock's mark is an instant that the clock gave |
| `SingleUseGateSafety.NeverGoesBack` | core/gate/reference-single-use-gate.mjs:305-369 | terminal states stay, bindings stay, the high-water mark never falls, forwarded calls are never taken back |
| `LeaseTheorems.RollbackRestores` | scripts/pom-rx-v01-fixture-destination-internals.mjs:116-136 | after any run without foreign changes, failed creations and writes included, a rollback whose own calls go through reaches ROLLED_BACK if and only if every claim was proven, and then the tree is exactly the one before acquire |
| `LeaseTheorems.OnlyProvenIsRemoved` | scripts/pom-rx-v01-fixture-destination-internals.mjs:116-136 | a corollary of the definitions: no step of the lease removes anything but the object of one proven claim where it still is, a file by its only link or an empty directory: the newest claim left in a rollback, or the marker while every claim is in place |
| `LeaseTheorems.RollbackVerdict` | scripts/pom-rx-v01-fixture-destination-internals.mjs:116-136 | in every run, whatever others do, a rollback ends as rolled back exactly if every descriptor closed and every claim it came to was in place and its object removed, and as incomplete exactly if not |
| `LeaseTheorems.OnlyOwnObjectsRemoved` | scripts/pom-rx-v01-fixture-destination-internals.mjs:73-136 | in every run that can be rolled back, whatever others did: over all rollbacks, with anything that others do in between, only objects that the lease made are removed, if and only if no new directory was replaced by a foreign file or directory before its identity was read |
| `LeaseTheorems.FaithfulRemovesOwn` | scripts/pom-rx-v01-fixture-destination-internals.mjs:73-136 | in every run without such a replacement, whatever else others did, everything removed was made by the lease |
| `LeaseTheorems.ReplacedDirectoryIsRemoved` | scripts/pom-rx-v01-fixture-destination-internals.mjs:73-89 | a directory put in place of a new one before its identity is read is removed by rollback |
| `LeasePublication.ClosedMeans` | scripts/pom-rx-v01-fixture-destination-internals.mjs:162-172 | the closure check passes if and only if all claims hold and the files below the version root are exactly the claimed ones with their recorded bytes |
| `LeasePublication.PublishedOnlyWhenClosed` | scripts/pom-rx-v01-fixture-destination-internals.mjs:211-222 | every run that reaches PIN_PUBLISHED or COMMITTED passed a step at which the marker was gone and the version tree was exactly the written files |
| `LeasePublication.CommittedOnlyWhenClosed` | scripts/pom-rx-v01-fixture-destination-internals.mjs:223-230 | every run that reaches COMMITTED passed the closure check again, with the pin's own bytes in place |
| `LeasePublication.RecordsWereWritten` | scripts/pom-rx-v01-fixture-destination-internals.mjs:187-222 | whatever a run has recorded for a file, an earlier step of it wrote completely through the descriptor of the file made for that very claim, whose path led to that object and whose content then began with those bytes |
| `LeasePublication.FailedWriteSpoils` | scripts/pom-rx-v01-fixture-destination-internals.mjs:194-200 | a write that fails part-way leaves a claimed file without a record |
| `LeasePublication.SpoiledNeverPublishes` | scripts/pom-rx-v01-fixture-destination-internals.mjs:211-230 | from then on no run, whatever is tried or changed, publishes or commits |
| `LeaseObject.Lease.CreateDirectory` | scripts/pom-rx-v01-fixture-destination-internals.mjs:73-89 | at most one claim is pushed, and success means that its path leads to the recorded directory; undisturbed, it succeeds exactly for a free name in an existing directory |
| `LeaseObject.Lease.CreateFile` | scripts/pom-rx-v01-fixture-destination-internals.mjs:99-115 | at most one claim is pushed, proven on success, and its descriptor stays open exactly if asked; undisturbed, it succeeds exactly for a free name in an existing directory |
| `LeaseObject.Lease.Acquire` | scripts/pom-rx-v01-fixture-destination-internals.mjs:139-150 | success leaves the three proven claims in order; failure leaves a finished rollback or nothing; undisturbed, it succeeds if and only if version root and pin are free, and otherwise leaves the tree as it was |
| `LeaseObject.Lease.Revalidate` | scripts/pom-rx-v01-fixture-destination-internals.mjs:153-161 | says whether every claim still leads to its object |
| `LeaseObject.Lease.VerifyClosure` | scripts/pom-rx-v01-fixture-destination-internals.mjs:162-172 | says whether the version tree is exactly what was written |
| `LeaseObject.Lease.EnsureDirectory` | scripts/pom-rx-v01-fixture-destination-internals.mjs:173-186 | success means that every segment is claimed; only directory claims are added; undisturbed, it succeeds whenever nothing but directories is claimed on the way |
| `LeaseObject.Lease.WriteExclusive` | scripts/pom-rx-v01-fixture-destination-internals.mjs:187-202 | success records exactly the bytes for the new file; a new file without a record is one that blocks publication for good; undisturbed, a write succeeds if and only if its path runs through directories to a name not yet claimed |
| `LeaseObject.Lease.RemoveMarker` | scripts/pom-rx-v01-fixture-destination-internals.mjs:203-210 | success removes exactly the marker's claim; undisturbed, it removes the marker from the tree and nothing else, and succeeds exactly for an active lease that still holds its marker and all claims |
| `LeaseObject.Lease.PublishPin` | scripts/pom-rx-v01-fixture-destination-internals.mjs:211-222 | success moves an active lease without marker to PIN_PUBLISHED with the pin's bytes recorded; impossible after a failed write; undisturbed, it succeeds exactly if the version tree is what was written |
| `LeaseObject.Lease.Commit` | scripts/pom-rx-v01-fixture-destination-internals.mjs:223-230 | success means that the version tree and the pin are exactly as recorded, and undisturbed it succeeds exactly then |
| `LeaseObject.Lease.Rollback` | scripts/pom-rx-v01-fixture-destination-internals.mjs:116-136 | undisturbed, it succeeds if and only if all claims were proven, and then restores the tree before the lease; a finished lease is left alone |
| `PlainData.CaptureValue` | core/reference-data/plain-data-snapshot.mjs:223-254 | with what depth and budget are left, the value is copied to its unfolding and the budget falls by its size, or no unfolding fits and the error names a reason that is there |
| `PlainData.CaptureArray` | core/reference-data/plain-data-snapshot.mjs:134-180 | the same for arrays; the early length checks refuse nothing that would fit |
| `PlainData.CaptureObject` | core/reference-data/plain-data-snapshot.mjs:182-221 | the same for objects; the early width check refuses nothing that would fit |
| `PlainData.Capture` | core/reference-data/plain-data-snapshot.mjs:256-259 | on any heap it ends and accepts exactly values whose unfolding exists, is at most 8 deep and has at most 1,000 nodes; the result is that unfolding; a refusal names a reason that is there, such as a path to an unsafe number |
| `PlainData.UnfoldingUnique` | core/reference-data/plain-data-snapshot.mjs:134-254 | a value has at most one unfolding |
| `PlainData.CyclesAreRefused` | core/reference-data/plain-data-snapshot.mjs:223-226 | a value from which a cycle can be reached, at any distance and of any length, has no unfolding and is refused |
| `PlainData.RecapturesToItself` | core/reference-data/plain-data-snapshot.mjs:165-220 | the stored copy of a captured value captures to the same value and to nothing else |
| `KeyScanner.Scanner.SkipLiteral` | scripts/pom-rx-v01-fixture-contract.mjs:43-59 | finds the first quote that is not escaped, if there is one |
| `KeyScanner.Scanner.ParseString` | scripts/pom-rx-v01-fixture-contract.mjs:43-59 | decodes the literal and leaves the index behind it |
| `KeyScanner.Scanner.ParseValue` | scripts/pom-rx-v01-fixture-contract.mjs:60-69 | advances the index over exactly what the functional scanner consumes, with the same verdict |
| `KeyScanner.Scanner.ParseArray` | scripts/pom-rx-v01-fixture-contract.mjs:70-88 | the same for arrays |
| `KeyScanner.Scanner.ParseObject` | scripts/pom-rx-v01-fixture-contract.mjs:89-116 | the same for objects, with their set of seen keys |
| `KeyScanner.Scanner.ScanObjectKeys` | scripts/pom-rx-v01-fixture-contract.mjs:38-121 | the index-driven scanner gives the verdict of the functional scanner on the whole text |
| `KeyScannerExact.MembersCleanMeaning` | scripts/pom-rx-v01-fixture-contract.mjs:97-114 | the member loop's running test amounts to pairwise different keys and clean values |
| `KeyScannerExact.ScannerExact` | scripts/pom-rx-v01-fixture-contract.mjs:38-121 | for every value, with any scalars, in any white space and escape spelling, the whole text is read and accepted if and only if no object at any depth repeats a decoded key; otherwise the error is the duplicate key |
| `KeyScannerJson.JsonTextsExact` | scripts/pom-rx-v01-fixture-contract.mjs:38-121 | on every JSON text, with the white space, literal names, numbers and strings of RFC 8259 (sections 2, 3, 6 and 7) spelled out: a duplicate key is reported if and only if two keys of some object spell the same code units, and otherwise the text is accepted |
| `KeyScannerLanguage.AcceptsExactly` | scripts/pom-rx-v01-fixture-contract.mjs:38-121 | a text of any code units is accepted if and only if it is the text of a value in some white space and spelling, none of whose objects repeats a decoded key |
| `ExecutionRecorder.BuiltValidates` | core/execution/reference-execution-evidence.mjs:149-201 | a corollary of the definitions: the record built for a sound handle and any reported outcome passes validation |
| `ExecutionRecorder.FailsOnlyByTheClock` | core/execution/reference-execution-evidence.mjs:291-321 | a completion fails if and only if the clock does; the validation inside never fails |
| `ExecutionRecorder.HandlesBounded` | core/execution/reference-execution-evidence.mjs:238-277 | over every run at most 1,000 handles exist, no two for one authorization, each started inside its window |
| `ExecutionRecorder.RecordsSound` | core/execution/reference-execution-evidence.mjs:291-417 | every record is its handle's only one, says what the handle was opened for, was recorded no earlier than it started, is known exactly when it has an effect and no diagnostic, and passes validation |
| `ExecutionRecorderHistory.RecordsGoBack` | core/execution/reference-execution-evidence.mjs:149-201 | every record goes back to the opening, the reservation and the completion of its handle, in this order, and says field by field what the handle was opened for, what was reported and the two instants |
| `ExecutionRecorder.SettledForever` | core/execution/reference-execution-evidence.mjs:279-289 | a recorded or failed handle never changes again, and the clock mark never falls |
| `ExecutionRecorder.UsedForever` | core/execution/reference-execution-evidence.mjs:251-262 | an opened authorization opens no second handle in any continuation |
| `ExecutionRecorder.Recorder.SampleTrustedClock` | core/execution/reference-execution-evidence.mjs:220-236 | a reading is accepted exactly if it is an instant not before the last one, which it replaces |
| `ExecutionRecorder.Recorder.BeginRecording` | core/execution/reference-execution-evidence.mjs:238-277 | a handle is opened exactly for a valid, unused binding inside its window, with room left; the invariant is kept |
| `ExecutionRecorder.Recorder.ReserveHandle` | core/execution/reference-execution-evidence.mjs:279-289 | reserving succeeds exactly for an open handle of this recorder |
| `ExecutionRecorder.Recorder.FinishRecording` | core/execution/reference-execution-evidence.mjs:291-417 | finishing hands out a valid record exactly if the clock is accepted, and otherwise fails the handle |
| `ObserverProtocol.Capture.SetTerminal` | core/observation/reference-observation-reconciliation.mjs:384-402 | a first report is taken, a second synchronous one turns into a conflict, a later one is ignored |
| `ObserverProtocol.Capture.InvocationEnded` | core/observation/reference-observation-reconciliation.mjs:428-450 | a throw and a returned value override what was reported |
| `ObserverProtocol.Observe` | core/observation/reference-observation-reconciliation.mjs:368-452 | for any synchronous and later reports and any ending, the promise is settled at most once, with the closed-form verdict, and each callback returns the closed-form answer |
| `ObserverProtocol.VerdictExactly` | core/observation/reference-observation-reconciliation.mjs:368-452 | a corollary of the definitions: exactly when a capture comes to each of its five ends and when to none: an observation, for one, if and only if the observer returned nothing and it came in the only synchronous report or in the first later one after none |
| `EvidenceRegistry.StorageMeaning` | integrations/stellar-evidence-registry/contracts/evidence-registry/src/lib.rs:159-242 | in every lawful log a batch is registered and revoked at most once each, and its record exists exactly if registered and tells exactly the hashes, issuer, ledger and revocation |
| `EvidenceRegistry.VerifyMeaning` | integrations/stellar-evidence-registry/contracts/evidence-registry/src/lib.rs:260-280 | verification is true if and only if the batch was registered with these hashes and never revoked |
| `EvidenceRegistry.RecordsContinue` | integrations/stellar-evidence-registry/contracts/evidence-registry/src/lib.rs:204-242 | over every history a record's hashes, issuer and ledger stay, and its status goes from active to revoked at most once |
| `EvidenceRegistry.AdminStays` | integrations/stellar-evidence-registry/contracts/evidence-registry/src/lib.rs:119-141 | once set, the admin never changes |
| `EvidenceRegistry.AccessMeaning` | integrations/stellar-evidence-registry/contracts/evidence-registry/src/lib.rs:119-157 | the writers are exactly the addresses that were made writers last, and the admin the address that was initialized |
| `EvidenceRegistry.OnlyTheEntitled` | integrations/stellar-evidence-registry/contracts/evidence-registry/src/lib.rs:159-242 | every registration was made by a writer of that moment for a batch never registered before, every revocation by the admin or the batch's registrant, and initialization happened once |
| `EvidenceRegistry.Registry.Initialize` | integrations/stellar-evidence-registry/contracts/evidence-registry/src/lib.rs:119-141 | succeeds once, signed; storage stays the replay of a lawful log |
| `EvidenceRegistry.Registry.SetWriter` | integrations/stellar-evidence-registry/contracts/evidence-registry/src/lib.rs:143-157 | succeeds exactly if the admin signed; storage stays the replay of a lawful log |
| `EvidenceRegistry.Registry.Register` | integrations/stellar-evidence-registry/contracts/evidence-registry/src/lib.rs:159-202 | succeeds exactly for a signed, authorised writer and a new batch, with the source's order of errors; storage stays the replay of a lawful log |
| `EvidenceRegistry.Registry.Revoke` | integrations/stellar-evidence-registry/contracts/evidence-registry/src/lib.rs:204-242 | succeeds exactly for an active record and a signed admin or issuer, with the source's order of errors; storage stays the replay of a lawful log |
| `EvidenceRegistry.Registry.Get` | integrations/stellar-evidence-registry/contracts/evidence-registry/src/lib.rs:244-258 | returns a record exactly if the batch was ever registered, and it tells the batch's history |
| `EvidenceRegistry.Registry.Verify` | integrations/stellar-evidence-registry/contracts/evidence-registry/src/lib.rs:260-280 | true if and only if the log holds a matching registration and no revocation |

## Left out

- SHA-256, Ed25519 and HMAC: hashes are symbolic and injective, so collisions and the 24-character `batch_ref` are not modelled.
- NFC and NFKC tables: NFC is a parameter; on the ASCII key alphabet NFKC changes nothing.
- Date parsing: instants are integers or, in the batch order, the normalised text that the source sorts by.
- `CanonicalPayload.Validate`: floats and other unsupported Python values are not in the value type; the source refuses them all.
- JavaScript realm hardening (proxies, accessors, symbols, prototypes, saved intrinsics): one flag per object, or the type of its properties.
- Durable claim store as a class: it is a state machine on values, because its subject is the interleaving of many processes; update in place and aliasing inside one process are not captured.
- The durable store's check of its root directory: part of the ways in which the first step may fail.
- Outside tampering with the durable store's directory: nobody but the store's own calls writes there.
- `DurableClaimTheorems.InspectionsNeverGoBack`: stops at a power loss, since an unsynced claim may then be lost.
- Lease: an identity check and the removal or write it guards are one step, and so is the closure check; a swap between the two is not seen.
- Lease: inode numbers are never reused, and Windows streams, reparse points, the parent root's own identity and path-name validation are not modelled.
- Lease: a rollback that gives up on path metadata is a rollback all of whose removals fail.
- Lease: descriptors that fail to close are modelled in rollback, where the failure is counted, and not in the other operations.
- `KeyScannerLanguage.AcceptsExactly`: values have any scalars, since the scanner leaves the shape of scalars to the `JSON.parse` that follows it.
- `PlainData.Capture`: where a value has several faults, which of their error codes is reported first; proxies, prototypes and symbol keys share one code.
- Error message texts, and which check fails first where several would, except in the batch builder and the registry.
- Recorder: the binding's identifier patterns and the set of locally known evidence objects.
- Observation: the normalisation and classification behind the observer, which are single-pass checks.
- Registry: TTL extension and archival; `require_auth` is membership in the set of signers.
- The gate and the durable store composed: the repository keeps them apart (core/README.md:24-28).
- Progress of clocks, observers and downstreams: the code promises none.
- The TypeScript SDK, wallet guard, risk engine, relay, anchor records and command-line tools: single-pass checks or plumbing that would only add easy members.
