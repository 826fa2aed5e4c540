# mmaudit: a verified model of its evidence protocols

mmaudit audits smart-contract repositories and ships what it found as evidence that others can check:
forensic bundles of whole runs, release reports made of gate receipts, privacy policies bound to an
operator's consent. This project models the code behind those promises and proves them for all inputs,
all runs and all interleavings.

- **Evidence files** (`FileSystem`, `EvidenceReading`, `EvidenceWriting`, `EvidenceCopying`, `EvidenceTree`). Reading,
  writing and copying one file through held directory descriptors, on a file system that an environment
  may rewrite between any two system calls. Reads and writes may be short, and any call may fail.
- **Forensic bundles** (`Text`, `Names`, `Trees`, `PortablePaths`, `DirectoryInventory`, `Delivery`,
  `DeliveryVerification`, `JournalManifest`, `SourceRun`, `DeliveryImage`, `ForensicExport`, `DeliveryFigures`, `DeliveryTerms`). The export
  protocol with its incomplete-export marker, the descriptor and its validators, and the verifier.
- **Privacy** (`Money`, `Identifiers`, `PrivacyPolicy`, `PrivacyAuthority`). Canonical amounts, identifiers, the policy resolver and its
  evidence validator, and the live registries that turn a consent into an authorization.
- **Share accounting** (`Accounting`). The generated vault contract, over every run of mints and burns.
- **Release gates** (`GitInventory`, `ReleaseGates`, `ReleaseReport`, `ReleaseCollection`). The tracked-file
  inventory, receipts, bundles, the assembled report and the recomputation of bound receipts.
- **Acceptance and configuration** (`EconomicAcceptance`, `Configuration`). Reconciled outcomes against
  their validators, nested overrides, and the maximum-assurance transform.

## How the system is modelled

SHA-256 is a symbolic injective function: a digest is a datatype that carries what it is the digest of. JSON
decoding and encoding, regular expressions (but for model and provider identifiers, which are spelled out),
Unicode tables and the path normalizer are parameters; what is assumed of them is said by the predicates
`Sound`, `SoundContext`, `RejectsNul` and `ReadsPlainNumerals`, and by `RoundTrips` for the one descriptor that
an export writes. Of the cross-artifact checks on a run manifest the scheduler's custody of its journal is
modelled (`SchedulerCustody`, `ControlLayout`); the rest is one abstract predicate.

In `FileSystem` the environment is a script: before each call it may apply any number of changes, make the
call fail, or cut it short. Every change to an inode gives it a stamp never used before, which stands for the
times in a stat result. A ghost trace records every state, so that contracts can speak about single instants.
In `ForensicExport` nobody else writes; each call that changes the wrapper may fail, and the trace records
every state the wrapper passes through. A directory tree is a map from relative paths to nodes. `EvidenceTree`
connects the two: seen through paths, what the descriptor-level writers do, at every instant, is to leave such a
tree alone but for the one file they write.

Builders and validators often share a rule. So that the rule itself is not taken on trust, lemmas named `...Means`,
`...Says` and `...Exact` state what is accepted, built or returned without it: with the constants written out, or
in terms of trees, runs and inequalities alone.

Classes and methods with loops follow code that updates state in place; expressions became functions. A
constant of the program (field bound, limit, fixed name) keeps its value.

`SmallestDelivery` builds a concrete context (with the sufficient conditions of `PlainDeliveries`), a run with a
retained journal of another run, with and without scheduler state, and its accepted wrapper; `PrivacyExample`
gives a run of load, issue and validate that succeeds. So the preconditions of the main theorems on these two
protocols can be met.

## What the proofs found

Four places where one part of the code does not meet what another part or its own description promises. The
code is modelled as it is, the exact condition is proved, and a concrete input fails.

- The privacy resolver's own checks admit requests that its evidence validator refuses: without consent, more
  than 64 models or 128 providers, and with any profile a budget whose canonical text is longer than 32
  characters (`ResolverMeetsValidator`; inputs in `LongListsExist` and `TinyBudgetRefused`).
- The forensic verifier describes a complete bundle, yet collection passes over a file named
  `run-evidence-manifest.json` at the top of a retained journal. When the run holds `scheduler-state.json`, as every
  completed or provider-using report must, the scheduler's layout check refuses that file and an accepted wrapper
  is complete (`AcceptedIsComplete`). A run without it may still carry a journal reference, and then the file goes
  unseen (`NothingElseIff`, `JournalManifestUnseenIff`; an accepted wrapper in `UnboundFileAccepted`).
- The receipt builder derives a status for an execution with both a blocker and an exit code or timeout, and
  the receipt validator refuses the result (`DerivedReceiptAccepted`; inputs in `BlockedExitRefused`).
- A bundle may bind 1,073,741,824 artifact bytes while the report accepts 1,000,000,000 for one receipt
  (`AssemblyMeetsValidator`; an input in `LargeReceiptRefused`).

## Model

| member | source | states |
|---|---|---|
| `EvidenceReading.OpenRoot` | src/mmaudit/release_io.py:584-623 | An opened root is a directory whose inode and mode the path shows at that very instant; without interference it fails only for an unavailable root |
| `EvidenceReading.OpenParent` | src/mmaudit/release_io.py:626-648 | The parent was reached by looking up each component in order at increasing instants; without interference it is the directory the path leads to |
| `EvidenceReading.ReadDescriptor` | src/mmaudit/release_io.py:651-663 | Short reads, however interleaved, give exactly the content if the inode is at the end what it was at the start; without interference it fails only for a failed call or a file over the bound |
| `EvidenceReading.ReadIsSnapshot` | src/mmaudit/release_io.py:523-581 | Equal stat identities before and after a read make the bytes the file's whole content at every instant in between |
| `EvidenceReading.ReadFileOnce` | src/mmaudit/release_io.py:523-581 | For every interleaving, a successful read returns the bytes that the file at the path held, all at one instant and at every instant between its two sightings; without interference and failed calls it succeeds exactly for an unshared file within the bound at the path |
| `EvidenceReading.ObserveFileTwice` | src/mmaudit/release_io.py:502-520 | Two such snapshots of one file; it held the returned bytes at every instant from the first sighting to the last; the same exact condition for success |
| `EvidenceWriting.WriteAll` | src/mmaudit/release_io.py:410-415 | Short writes together append exactly the data and touch no other inode; a write that stops had a failed call |
| `EvidenceWriting.CreateFresh` | src/mmaudit/release_io.py:379-408 | Without outside writers, creation adds exactly one empty private file or nothing; it fails only for a failed call or a name that is not free, and only a failed call leaves a file whose identity is not recorded |
| `EvidenceWriting.UnlinkCreatedFile` | src/mmaudit/release_io.py:846-869 | Cleanup through the path takes back exactly the created file, or a call failed |
| `EvidenceWriting.UnlinkCreatedFileAt` | src/mmaudit/release_io.py:734-759 | Cleanup through the held parent takes back exactly the created file, or reports that it could not |
| `EvidenceWriting.WriteFileContent` | src/mmaudit/release_io.py:370-462 | On return two snapshots have shown the written bytes at the path. Without outside writers: with no failed call it returns exactly for a free name and content within the bound, and otherwise leaves the disk as before; after a failed call the file is left behind only if a call failed before its identity was recorded or while cleaning up; a taken name changes nothing; at no instant does anything but that file change; the file is private (mode 0600) |
| `EvidenceCopying.HashedContent` | src/mmaudit/release_io.py:666-677 | The streamed digest is the digest of the whole content when the identity did not change around it |
| `EvidenceCopying.StreamChunks` | src/mmaudit/release_io.py:246-262 | The digest and size are those of the source if it did not change meanwhile; without outside writers the destination then holds exactly the digested bytes, nothing else changed, and it stops only for a failed call or an oversized source |
| `EvidenceCopying.RequireSameRelativeFile` | src/mmaudit/release_io.py:689-731 | The path was walked again to a file of the recorded identity; without interference it refuses only for a failed call or a path that does not lead to it |
| `EvidenceCopying.CopyFileEvidence` | src/mmaudit/release_io.py:162-367 | For every interleaving, a copy that returns had both paths resolving, at their last identity checks, to unshared files whose whole content has the expected digest and size. Without outside writers: with no failed call it returns exactly when the source is as bound and the destination name free, and otherwise leaves the disk as before; the same promises about failed calls and about every instant as writing |
| `EvidenceTree.PlacedShows` | src/mmaudit/release_io.py:162-462 | Seen through paths, a placed file shows at its path with its bytes, was not there before, and no other path shows anything different |
| `EvidenceTree.KeptShows` | src/mmaudit/release_io.py:846-869 | After a cleanup every path shows what it showed before |
| `EvidenceTree.TouchedShows` | src/mmaudit/release_io.py:162-462 | At every instant of a write or copy no path but the destination shows anything different, and that one shows what it did or an unshared file |
| `EvidenceTree.TouchedKeepsTree` | src/mmaudit/release_io.py:162-462 | What a write or copy leaves, at any instant, is a tree again, so calls can follow one another |
| `PortablePaths.Register` | src/mmaudit/forensic_export.py:1467-1479 | One path extends the dictionary by exactly its prefixes, or collides |
| `PortablePaths.RequirePortablePaths` | src/mmaudit/forensic_export.py:1464-1484 | The incremental dictionary accepts exactly the normalized, NFC, bounded paths of which no two registered prefixes share a folded key with another spelling or kind |
| `DeliveryTerms.PortableMeans` | src/mmaudit/forensic_export.py:1464-1484 | Paths are portable exactly when each is its own normal form of at most 4,096 characters and only equal prefixes of one kind fold together |
| `DeliveryTerms.PartsSay` | src/mmaudit/forensic_export.py:1470-1471 | The components of a path are its slash-separated names, empty ones and dots dropped |
| `PortablePaths.PortableIgnoresOrder` | src/mmaudit/forensic_export.py:1464-1484 | The answer does not depend on the order of the paths |
| `PortablePaths.NoFileIsADirectory` | src/mmaudit/forensic_export.py:1464-1484 | In accepted paths no file is also a directory |
| `DirectoryInventory.ListOne` | src/mmaudit/forensic_export.py:1357-1382 | Listing one directory appends exactly its subdirectories and refuses exactly unsafe entries or too many directories |
| `DirectoryInventory.ObserveDirectoryInventory` | src/mmaudit/forensic_export.py:1352-1383 | On every finite tree the stack traversal ends, accepts exactly the trees of safe directories and unshared files within bounds, and returns the strictly sorted set of all descendant directories |
| `DeliveryTerms.InventoriedMeans` | src/mmaudit/forensic_export.py:1352-1383 | A directory inventory exists exactly for directories and unshared files with safe names, paths of at most 4,096 characters and at most 200,001 directories, and is their sorted list |
| `Delivery.PrefixKeepsOrder` | src/mmaudit/forensic_export.py:1424-1429 | A common prefix keeps an inventory strictly sorted |
| `Delivery.ArtifactsExact` | src/mmaudit/forensic_export.py:645-659 | The delivered artifacts are exactly the run's and the journal's, strictly sorted, none lost or merged |
| `Delivery.OwnBinding` | src/mmaudit/forensic_export.py:665-673 | Each run file has exactly one delivered binding, with its digest and size |
| `Delivery.BuiltDependencyExact` | src/mmaudit/forensic_export.py:562-634 | The built journal dependency passes its validator exactly when its counts and bytes are in range |
| `Delivery.SealMeetsValidators` | src/mmaudit/forensic_export.py:150-254 | For every observed run the sealed descriptor passes both inventory validators exactly when counts, bytes and path spellings are within limits |
| `DeliveryTerms.DescriptorMeans` | src/mmaudit/forensic_export.py:55-265 | The validators accept a descriptor exactly when names, orders, counts, sums, hashes, flags and memberships are these, spelled out with every constant |
| `Delivery.SealKeepsInventory` | src/mmaudit/forensic_export.py:637-701 | Stripping the run directory from the sealed artifacts gives back the source inventory |
| `DeliveryFigures.SealFigures` | src/mmaudit/forensic_export.py:684-695 | For every observed run the sealed private count is that of the paths starting with `private/` plus the whole journal, the log count that of the paths starting with `logs/`, and each flag says whether such a path exists |
| `SourceRun.ObserveSource` | src/mmaudit/forensic_export.py:306-316 | Succeeds exactly when a complete observation of the run, its directories and its journal exists, and returns it |
| `SourceRun.ObservableUnique` | src/mmaudit/forensic_export.py:354-373 | There is only one such observation, so an unchanged source is observed alike twice |
| `DeliveryTerms.ObservedSays` | src/mmaudit/forensic_export.py:306-316 | What the export observes is all files of the run with digests and sizes, all its directories, and the other run's journal exactly when a reference leads to one |
| `DeliveryVerification.CollectRunArtifacts` | src/mmaudit/orchestration/manifest.py:5977-6009 | Returns the strictly sorted bindings of all files but the run manifest, exactly when every entry is allowed and the bounds hold |
| `DeliveryTerms.CollectedMeans` | src/mmaudit/orchestration/manifest.py:5977-6009 | Collection returns bindings exactly when every entry but one of the run manifest's name may be collected, and they list all other files in order, within 100,000 files and four gibibytes |
| `DeliveryVerification.ObserveCompleteRun` | src/mmaudit/forensic_export.py:538-559 | Succeeds exactly on runs whose files equal their manifest's bindings and that pass the bounds, the scheduler's custody rules and the other cross-artifact checks |
| `DeliveryTerms.RunMeans` | src/mmaudit/forensic_export.py:538-559 | A run is complete exactly when it holds no public subset, a small manifest that lists all its other files, and its journal in custody with the fixed layout, passes the cross-artifact checks and is within the limits |
| `DeliveryTerms.CustodyMeans` | src/mmaudit/orchestration/manifest.py:3075-3130 | Custody holds exactly when a run with scheduler state keeps its journal in itself or beside it under a reference to another run, never both, with the fixed files and directories |
| `DeliveryVerification.CustodyClearsJournal` | src/mmaudit/orchestration/scheduler.py:3040-3080 | With scheduler state in the run, the layout check leaves no file at the top of a retained journal that collection passes over |
| `DeliveryVerification.InventoryIsExact` | src/mmaudit/forensic_export.py:550-554 | The inventory lists every file of the run with its digest and size, strictly sorted |
| `DeliveryVerification.ObserveDeliveryInventory` | src/mmaudit/forensic_export.py:763-836 | Accepts exactly the wrappers whose layout, directories, journals and artifacts match the descriptor |
| `DeliveryVerification.ValidateDeliveryContents` | src/mmaudit/forensic_export.py:725-760 | Accepts exactly the wrappers whose copied contents match the descriptor |
| `DeliveryVerification.VerifyCompleteForensicBundle` | src/mmaudit/forensic_export.py:417-490 | Returns a descriptor exactly when the wrapper is acceptable under it |
| `DeliveryVerification.AcceptedIsExact` | src/mmaudit/forensic_export.py:1137-1171 | Whatever verification accepts has no marker, exactly the listed directories, every bound file unshared with its bound bytes, and no other file but the descriptor, except one passed over in a journal of a run without scheduler state |
| `DeliveryVerification.AcceptedIsComplete` | src/mmaudit/orchestration/manifest.py:3075-3130 | With scheduler state in the run, or without a journal, the files of an accepted wrapper are exactly the descriptor and the bound paths |
| `DeliveryVerification.NothingElseIff` | src/mmaudit/forensic_export.py:775-783 | An accepted wrapper holds nothing but the descriptor and the bound files exactly when no file of the run manifest's name is at the top of a journal |
| `DeliveryVerification.AcceptedDescribesRun` | src/mmaudit/forensic_export.py:746-760 | The manifest an accepted wrapper carries has the descriptor's run id, self-hash and file hash, and binds exactly the artifacts delivered below the primary run |
| `DeliveryFigures.AcceptedNames` | src/mmaudit/forensic_export.py:150-254 | In an accepted wrapper every place in the descriptor is spelled out from the run's and the owner's name, and each dependency's counts, sums and hashes are those of its lists |
| `DeliveryFigures.AcceptedFigures` | src/mmaudit/forensic_export.py:150-254 | Counts, byte total and hashes of an accepted descriptor are those of the bound files and of all directories of the wrapper, in order and within the limits |
| `DeliveryFigures.AcceptedClasses` | src/mmaudit/forensic_export.py:238-249 | The private and log figures of an accepted descriptor count the bound files in `private/` and `logs/` of the run, and all of a delivered journal as private |
| `DeliveryFigures.AcceptedHasNoSubset` | src/mmaudit/forensic_export.py:541-542 | No accepted wrapper holds a public-subset manifest at the top of its run |
| `DeliveryFigures.AcceptedEntries` | src/mmaudit/forensic_export.py:1352-1383 | Every entry of an accepted wrapper is a directory or an unshared file with a path of at most 4,096 characters and safe names |
| `DeliveryFigures.AcceptedFolds` | src/mmaudit/forensic_export.py:1464-1484 | No two bound files or directories of an accepted wrapper have spellings that fold together, and each spelling is its own normal form |
| `DeliveryFigures.AcceptedJournal` | src/mmaudit/forensic_export.py:785-814 | A dependency lists exactly the files and directories that lie in the delivered journal, but for one file of the run manifest's name, and the hash of the reference's bytes |
| `DeliveryFigures.AcceptedCustody` | src/mmaudit/orchestration/scheduler.py:3040-3080 | With scheduler state in the run, the journal is in the run or beside it under a reference to another run, never both, and has the fixed files and directories and at most one more |
| `DeliveryFigures.AcceptedManifest` | src/mmaudit/forensic_export.py:538-559 | The manifest of an accepted wrapper is an unshared file of at most 100,000,000 bytes with 1 to 100,000 artifacts that passes the cross-artifact checks, and every other entry of the run may be collected |
| `JournalManifest.JournalManifestUnseenIff` | src/mmaudit/orchestration/manifest.py:5981-5983 | Adding such a file to an accepted delivery with a journal leaves it accepted exactly when the run keeps no scheduler state |
| `DeliveryImage.ImageRun` | src/mmaudit/forensic_export.py:339-345 | The tree rebuilt from the descriptor alone holds the source run, byte for byte (bytes can be rebuilt because the symbolic digest carries them: in the program, files with these digests) |
| `DeliveryImage.ImageJournal` | src/mmaudit/forensic_export.py:346-352 | In the same sense it holds the source journal, all of it when the run keeps scheduler state and otherwise less the file passed over |
| `DeliveryImage.StateCopyPasses` | src/mmaudit/orchestration/manifest.py:3075-3130 | A run with scheduler state, or without a journal, passes the cross-artifact checks beside its copied journal as it does at the source |
| `DeliveryImage.DeliveredAccepted` | src/mmaudit/forensic_export.py:417-490 | The delivered image of every exportable run is accepted by verification |
| `ForensicExport.UnfinishedRejected` | src/mmaudit/forensic_export.py:1137-1144 | No state that shows the marker or lacks the descriptor is accepted |
| `ForensicExport.Medium.WriteMarker` | src/mmaudit/forensic_export.py:940-987 | Every state on the way is the old one or shows the marker, also when the write is cut short, fails or is taken back |
| `ForensicExport.Medium.RemoveMarker` | src/mmaudit/forensic_export.py:990-1042 | Every state is marked or the finished wrapper; a failed removal leaves the marker unless a second call failed too |
| `ForensicExport.Medium.MakePath` | src/mmaudit/forensic_export.py:1078-1134 | Creates exactly the missing directories of a path and nothing else |
| `ForensicExport.Medium.CopyInventory` | src/mmaudit/forensic_export.py:704-722 | Copies every bound file to its place with its bytes, the marker staying in every state |
| `ForensicExport.MarkWrapper` | src/mmaudit/forensic_export.py:329-334 | A failed first marker leaves no wrapper or a marked one unless a second call failed too |
| `ForensicExport.Fill` | src/mmaudit/forensic_export.py:336-352 | Without a failed call the wrapper becomes exactly the image of the descriptor under the marker; every state on the way shows the marker |
| `ForensicExport.SealDecides` | src/mmaudit/forensic_export.py:637-701 | For every observed run, the validators pass exactly when it is within limits |
| `ForensicExport.ExportCompleteForensicBundle` | src/mmaudit/forensic_export.py:297-414 | Whatever calls fail, every state of the wrapper is rejected or the complete delivery; with at most one failed call a failed export leaves a rejected wrapper; an export that returns leaves the complete, accepted delivery; with no failed call it returns exactly for exportable runs and fresh destinations |
| `DeliveryFigures.ExportedSays` | src/mmaudit/forensic_export.py:297-414 | What an export that returns has left: the source run entry by entry below `runs/`, the encoded descriptor beside it, and the run was no public subset |
| `SmallestDelivery.SmallestRunExportable` | src/mmaudit/forensic_export.py:297-325 | In a concrete context, a run with a retained journal meets every condition of the export, with scheduler state and without; nothing is assumed |
| `SmallestDelivery.UnboundFileAccepted` | src/mmaudit/orchestration/manifest.py:2845-2858 | Its wrapper with an unbound file at the top of the journal is accepted without scheduler state and refused with it |
| `Money.RenderKeepsValue` | src/mmaudit/privacy.py:1219-1223 | Rendering keeps the value and gives canonical text |
| `Money.RenderSeparatesValues` | src/mmaudit/config.py:1109-1113 | Two numbers render alike exactly when they are equal, whatever their exponents |
| `Money.ParserAcceptsRenderedTexts` | src/mmaudit/privacy.py:1199-1208 | The parser accepts exactly the texts that rendering produces, and they render back |
| `Money.RenderThenParse` | src/mmaudit/privacy.py:1199-1223 | Rendering then parsing gives an equal number |
| `Money.SameValueIsEquality` | src/mmaudit/privacy.py:1211-1223 | Two amounts are the same exactly when their real values are |
| `PrivacyPolicy.AtMostValues` | src/mmaudit/privacy.py:1211-1216 | Comparing amounts depends on their values only, so the resolver's number and the validator's text agree |
| `PrivacyPolicy.AtMostIsOrder` | src/mmaudit/privacy.py:1211-1216 | One amount is at most another exactly when its real value is |
| `PrivacyPolicy.ConsentMeans` | src/mmaudit/privacy.py:113-262 | A consent is valid exactly when it binds bounded sorted lists, discloses each provider once, fits profile to source, lasts some time, names an operator, acknowledges routes without ZDR exactly when it has one, caps the cost at 250 and carries its hash |
| `PrivacyPolicy.ProvenanceMeans` | src/mmaudit/repository/privacy_provenance.py:116-215 | Source provenance is valid exactly for one of its three kinds of proof, with an inventory and a declaration for synthetic source |
| `PrivacyPolicy.EvidenceMeans` | src/mmaudit/privacy.py:311-510 | Evidence of a policy is valid exactly when its lists and budget are bounded, its source is proven, and it is a ZDR policy without consent or a policy wholly under one |
| `PrivacyPolicy.ResolveExact` | src/mmaudit/privacy.py:650-823 | The resolver returns evidence exactly for bounded sorted lists, a budget within 250 whose text has at most 32 characters, a provenance, and a profile that fits consent, source and route |
| `PrivacyPolicy.ResolvedSays` | src/mmaudit/privacy.py:786-823 | On every branch resolved evidence repeats the request, keeps the fields of provenance and consent one by one, states the budget's value, and carries the branch's limitation |
| `PrivacyPolicy.PublicNeverResolved` | src/mmaudit/privacy.py:456-457 | Evidence for public benchmark source is never built, whatever provenance is given |
| `PrivacyPolicy.ResolverMeetsValidator` | src/mmaudit/privacy.py:650-823 | Whatever the resolver's own checks admit, the evidence validator accepts exactly when model count, provider count and budget text are within its limits |
| `PrivacyPolicy.ConsentBoundsLists` | src/mmaudit/privacy.py:726-737 | Under a consent the two counts are always within limits |
| `PrivacyPolicy.TinyBudgetRefused` | src/mmaudit/privacy.py:355-355 | Strict requests with a budget of 10^-31 or less are admitted and then refused |
| `PrivacyPolicy.LongListsRefused` | src/mmaudit/privacy.py:650-823 | Every strict request for a canonical list of more than 64 models or 128 providers is admitted and then refused |
| `PrivacyPolicy.LongListsExist` | src/mmaudit/privacy.py:341-342 | Two such requests: 65 models `a/a`, `a/aa` and so on, and 129 providers `a`, `aa` and so on |
| `Identifiers.LettersAccepted` | src/mmaudit/models/identifiers.py:8-45 | An author has 1 to 128 characters, a model 1 to 256, a provider 1 to 200 |
| `Identifiers.ExactModelShape` | src/mmaudit/models/identifiers.py:33-45 | An accepted model has one slash, two halves that start with a letter or digit, lower-case letters, digits and separators only, and no colon in the author |
| `Identifiers.RoutedRefused` | src/mmaudit/models/identifiers.py:14-45 | A model with a routed word between separators is refused |
| `Identifiers.PlainModel` | src/mmaudit/models/identifiers.py:33-45 | A model without separators is refused only for being such a word itself |
| `PrivacyAuthority.EveryRunRemembers` | src/mmaudit/privacy.py:568-576 | In every run, each live registry entry goes back to a step that loaded or issued it |
| `PrivacyAuthority.LoadExact` | src/mmaudit/privacy.py:579-647 | In every run a load succeeds exactly for a safely read file of 1 to 262,144 bytes that is a valid consent |
| `PrivacyAuthority.IssueExact` | src/mmaudit/privacy.py:826-864 | In every run an authorization is issued exactly when the observation presented was loaded earlier and not dropped, its objects are as loaded, and its consent permits the request over a route without ZDR |
| `PrivacyAuthority.ValidationExact` | src/mmaudit/privacy.py:867-935 | In every run a validation succeeds exactly when the authorization was issued earlier and not dropped, its objects are as issued, the claim repeats that request with this evidence's hash and, if given, its provenance, and the time is within the consent's; it returns that evidence |
| `PrivacyAuthority.UnissuedRefused` | src/mmaudit/privacy.py:867-886 | An authorization that no earlier step issued is refused |
| `PrivacyAuthority.ValidationIsEarned` | src/mmaudit/privacy.py:867-935 | In every run with any interference, a successful validation returns unaltered evidence issued earlier, and the claim is covered by a consent loaded before that: same source, models and providers, cap at or above the budget, issue time <= now < expiry |
| `PrivacyAuthority.ExpiredStaysExpired` | src/mmaudit/privacy.py:928-932 | Once expired, an authorization never validates again under a monotone clock |
| `PrivacyAuthority.ForgottenStaysForgotten` | src/mmaudit/privacy.py:883-886 | A forgotten authorization never validates again |
| `PrivacyExample.ValidationCanSucceed` | src/mmaudit/privacy.py:826-935 | A consent for model `a/m` at provider `p` loaded, an authorization issued under it at time 5 and the matching claim at time 6 validates |
| `PrivacyAuthority.Registry.constructor` | src/mmaudit/privacy.py:569-576 | The registries start empty |
| `PrivacyAuthority.Registry.LoadPrivacyRetentionConsent` | src/mmaudit/privacy.py:579-647 | The in-place update is the load step of the run model |
| `PrivacyAuthority.Registry.ResolveTrustedPrivacyAuthorization` | src/mmaudit/privacy.py:826-864 | The in-place update is the issue step of the run model |
| `PrivacyAuthority.Registry.ValidateTrustedPrivacyAuthorization` | src/mmaudit/privacy.py:867-935 | Validation changes nothing and is the validate step of the run model |
| `Accounting.SyntheticAccounting.constructor` | scripts/generate_realistic_scale_fixtures.py:226-228 | The deployed contract is the empty ledger |
| `Accounting.SyntheticAccounting.MintSyntheticShares` | scripts/generate_realistic_scale_fixtures.py:245-254 | Minting takes the mint step of the ledger or reverts unchanged |
| `Accounting.SyntheticAccounting.BurnSyntheticShares` | scripts/generate_realistic_scale_fixtures.py:256-266 | Burning takes the burn step of the ledger or reverts unchanged |
| `Accounting.EveryRunIsGood` | scripts/generate_realistic_scale_fixtures.py:222-266 | In every run balances sum to total shares, and total shares are zero exactly when managed assets are |
| `Accounting.LimitIsTwoTo256` | scripts/generate_realistic_scale_fixtures.py:226-228 | Checked arithmetic overflows at two to the power 256 |
| `Accounting.MintExact` | scripts/generate_realistic_scale_fixtures.py:233-254 | In every reachable state a mint gives the receiver alone the floor of the deposit's worth in shares (the deposit itself at first), or reverts, exactly for a zero amount, an overflowing product or total, and changes nothing |
| `Accounting.BurnExact` | scripts/generate_realistic_scale_fixtures.py:239-266 | In every reachable state a burn takes the shares from the owner alone and pays the floor of their worth, or reverts, exactly for a short balance, a zero amount or an overflowing product, and changes nothing |
| `Accounting.BurnNeverUnderflows` | scripts/generate_realistic_scale_fixtures.py:256-266 | In every reachable state a burn reverts only for a short balance, a zero amount or an overflowing product, never for an underflow |
| `Accounting.PriceNeverFalls` | scripts/generate_realistic_scale_fixtures.py:233-266 | Assets per share never fall along any run in which shares remain |
| `Accounting.OthersClaimNeverDrops` | scripts/generate_realistic_scale_fixtures.py:233-266 | Nothing other holders do lowers a holder's redeemable claim |
| `Accounting.ClaimIsPaid` | scripts/generate_realistic_scale_fixtures.py:256-266 | A holder's claim is what burning the whole balance pays |
| `Accounting.MintThenBurnNeverProfits` | scripts/generate_realistic_scale_fixtures.py:245-266 | Burning what a mint gave, in any number of burns, never returns more than was paid in |
| `Accounting.RedeemedLeaves` | scripts/generate_realistic_scale_fixtures.py:256-266 | What a series of burns pays out is what leaves the managed assets |
| `Accounting.Solvent` | scripts/generate_realistic_scale_fixtures.py:222-266 | In every run the redeemable claims of all holders together are at most the managed assets |
| `GitInventory.ParseBodyInverts` | src/mmaudit/release_candidate.py:350-382 | One record parses to an entry exactly when the entry prints to it |
| `GitInventory.RecordText` | src/mmaudit/release_candidate.py:350-361 | A record is `100644 blob` or `100755 blob`, the object, a tab and the encoded path |
| `GitInventory.InventoryMeans` | src/mmaudit/release_candidate.py:337-387 | A valid inventory has 1 to 100,000 entries in order of path, hexadecimal objects of the right length, normal and safe paths without a leading dash, and no two paths that fold together |
| `GitInventory.ParseTrackedEntries` | src/mmaudit/release_candidate.py:337-387 | The parser accepts exactly the listings that print a valid strictly sorted inventory, pairwise distinct under folding, and returns it |
| `GitInventory.PrintInjective` | src/mmaudit/release_candidate.py:337-387 | A listing has at most one inventory |
| `ReleaseGates.DerivedReceiptAccepted` | src/mmaudit/release_gates.py:618-702 | A receipt with derived status, kind and counts is accepted exactly when the caller's counts, texts and times are in range and agree with how the gate ended; a blocker goes with neither exit code nor timeout |
| `ReleaseGates.StatusExact` | src/mmaudit/release_gates.py:618-702 | A status is derived for every timeout, nonzero exit and blocker, and for exit code zero exactly with real execution and an artifact |
| `ReleaseGates.ReceiptMeans` | src/mmaudit/release_gates.py:194-310 | A receipt is valid exactly when it is bounded and speaks of one of three endings: passed, failed or blocked, each spelled out |
| `ReleaseGates.BuiltSays` | src/mmaudit/release_gates.py:618-702 | A built receipt repeats what it was given, sorts the artifacts, counts the checks given or one for the gate, and has failed exactly after a timeout or nonzero exit |
| `ReleaseGates.BlockedExitRefused` | src/mmaudit/release_gates.py:618-702 | A blocker alone gives a valid receipt; with an exit code or a timeout beside it a status is derived and the receipt refused |
| `ReleaseGates.SortedArtifacts` | src/mmaudit/release_gates.py:253-264 | Sorted artifact bindings are valid exactly when no path comes twice and sizes are in range |
| `ReleaseGates.CheckBundleArtifacts` | src/mmaudit/release_gates.py:352-362 | The dictionary loop accepts exactly bindings without conflict whose distinct count and bytes are within bounds |
| `ReleaseGates.BundleMeans` | src/mmaudit/release_gates.py:324-380 | A bundle is valid exactly with a valid receipt of each of the twelve gates in order, all for its candidate and run, agreeing on every artifact, within 4,096 artifacts and one gibibyte |
| `ReleaseReport.AcceptedCounts` | src/mmaudit/release_report.py:268-298 | In every accepted report passed, blocked and failed gates add up to twelve, failed dominates blocked, and complete means all passed |
| `ReleaseReport.ReportMeans` | src/mmaudit/release_report.py:162-350 | A report is accepted exactly when its inputs, bound evidence, gates, verdict, limitations and times say what they should, each spelled out with its constants |
| `ReleaseReport.AssembledCarries` | src/mmaudit/release_report.py:366-464 | The assembled report carries the given parts and receipts over, and its limitations are the given ones and the blockers' summaries |
| `ReleaseReport.SortedRoles` | src/mmaudit/release_report.py:404-412 | Sorting the inputs gives the fixed roles exactly when each role comes once |
| `ReleaseReport.ProjectionValid` | src/mmaudit/release_report.py:467-496 | The projection of a valid receipt is valid exactly within the byte bound |
| `ReleaseReport.AssemblyMeetsValidator` | src/mmaudit/release_report.py:366-464 | For bound evidence the assembled report passes its full validator exactly when the parts that assembly does not derive fit |
| `ReleaseReport.PlainAssembly` | src/mmaudit/release_report.py:366-464 | Without extra limitations the derived ones are never refused, so only binding, freshness, byte bound and a matching maximum-assurance run decide |
| `ReleaseReport.LargeReceiptRefused` | src/mmaudit/release_report.py:467-496 | A valid bundle with one receipt of 1,045,000,000 artifact bytes gives no accepted report, whatever the other parts are |
| `ReleaseCollection.BoundReceipt` | src/mmaudit/release_observations.py:305-407 | The collector's receipt for a bound gate is refused exactly when its result file is over the artifact bound, and is blocked exactly for the five unbacked gates |
| `ReleaseCollection.CollectReceipts` | src/mmaudit/release_collection.py:121-147 | The loop succeeds exactly when every local command gave a receipt and every bound observation was made after its evidence and gave a result within the artifact bound, and returns valid receipts for the twelve gates in order, each as collected, with its result file |
| `ReleaseCollection.ValidateBoundReceipts` | src/mmaudit/release_observations.py:410-520 | Accepts exactly bundles whose eight bound receipts and results equal what is recomputed |
| `ReleaseCollection.ReconciledIff` | src/mmaudit/release_observations.py:440-519 | A valid receipt and its result are accepted exactly when the result is the one the observer writes for those times and the receipt the one built from it, field by field |
| `ReleaseCollection.BoundGates` | src/mmaudit/release_observations.py:714-737 | The inputs, the subject and the pass or blocker of each of the eight bound gates |
| `ReleaseCollection.GateKinds` | src/mmaudit/release_observations.py:714-737 | Which gates run a local command, which can pass, and which five have nothing behind them |
| `ReleaseCollection.CollectedSays` | src/mmaudit/release_observations.py:305-407 | The collector's own receipt of a bound gate says exactly that |
| `ReleaseCollection.CollectedAccepted` | src/mmaudit/release_observations.py:440-519 | With files and interpreter unchanged, the collector's receipts are accepted |
| `ReleaseCollection.BlockersNeverPromoted` | src/mmaudit/release_report.py:282-298 | Whoever made the bundle: every accepted report on accepted bound receipts has the five gates blocked, is not complete, passes at most seven gates and has the safe local gates incomplete |
| `ReleaseCollection.CollectedNeverComplete` | src/mmaudit/release_collection.py:121-147 | So no report on collected receipts is ever complete |
| `EconomicAcceptance.CaseTotals` | src/mmaudit/economic_acceptance.py:150-192 | A case passed exactly when its three counts are full |
| `EconomicAcceptance.ReconciledOutcomeValid` | src/mmaudit/economic_acceptance.py:295-374 | After the builder's explicit checks the outcome validator never refuses |
| `EconomicAcceptance.OutcomeMeans` | src/mmaudit/economic_acceptance.py:335-373 | A case passed exactly when every planted contract gave a counterexample in both campaigns and every safe one ran and stayed unconfirmed |
| `EconomicAcceptance.OutcomeSays` | src/mmaudit/economic_acceptance.py:335-373 | The lists, the counts as numbers of distinct contracts, and the three flags of an outcome, in terms of the case and the observed contracts |
| `EconomicAcceptance.BuildableMeans` | src/mmaudit/economic_acceptance.py:289-334 | The explicit checks pass exactly when each required ticket is observed once, no other is, and each case reconciles |
| `EconomicAcceptance.ReconcilesMeans` | src/mmaudit/economic_acceptance.py:299-334 | A case reconciles exactly when every observed contract is one of its own and each counterexample or pass was executed in the same campaign |
| `EconomicAcceptance.CaseMeans` | src/mmaudit/economic_acceptance.py:31-81 | A case has one to twenty sorted contracts of each kind and none of both |
| `EconomicAcceptance.ObservationMeans` | src/mmaudit/economic_acceptance.py:104-127 | Observed contracts come in six sorted lists of at most twenty |
| `EconomicAcceptance.ReportSays` | src/mmaudit/economic_acceptance.py:209-236 | An accepted report has one outcome for each required ticket in order, totals that add up and never exceed their partners, and passes exactly when all its cases do |
| `EconomicAcceptance.TotalsDecide` | src/mmaudit/economic_acceptance.py:209-236 | For any number of cases the verdict is passed exactly when executed equals applicable, reproduced equals planted and unconfirmed equals safe in the sums |
| `EconomicAcceptance.BuildReport` | src/mmaudit/economic_acceptance.py:283-399 | Returns exactly when the explicit checks pass; the report then passes the validator with that verdict |
| `Configuration.ApplyOverrides` | src/mmaudit/config.py:1859-1871 | Succeeds exactly when each override could be set alone; each overridden path then has its value and paths apart read as before |
| `Configuration.SetKeepsOthers` | src/mmaudit/config.py:2131-2135 | Setting one nested path leaves every path neither above nor below it as it was |
| `Configuration.SettableIff` | src/mmaudit/config.py:2131-2135 | A nested path can be set exactly when whatever stands on the way is a dictionary |
| `Configuration.EachRange` | src/mmaudit/config.py:1447-1457 | The values each touched field alone may take |
| `Configuration.EffectiveIsValid` | src/mmaudit/config.py:1447-1457 | The transform, which skips validation, keeps every range and the output-reserve rule |
| `Configuration.EffectiveIsNoWeaker` | src/mmaudit/config.py:1467-1638 | It never lowers a threshold, drops a required tool or scanner, or turns a switch off |
| `Configuration.EffectiveMeetsFloors` | src/mmaudit/config.py:1467-1638 | Under maximum assurance every demand, written out in numbers, is met; a permitted downgrade waives the two model floors and the required scanner |
| `Configuration.EffectiveIsLeast` | src/mmaudit/config.py:1467-1638 | It is the least hardening, with or without a permitted downgrade: whatever meets the demands and is no weaker than the original is no weaker than it |
| `Configuration.EffectiveIsDetermined` | src/mmaudit/config.py:1467-1638 | Meeting the demands at least cost with the tools sorted leaves exactly this configuration |
| `Configuration.EffectiveKeeps` | src/mmaudit/config.py:1467-1471 | Every other profile's configuration is returned as it is; profile and downgrade permission never change, and a permitted downgrade keeps the configured model floors and scanner requirement |
| `Configuration.EffectiveUnchangedIff` | src/mmaudit/config.py:1467-1638 | It changes nothing exactly outside maximum assurance or when the demands are met and the tools sorted |
| `Configuration.EffectiveTwice` | src/mmaudit/config.py:1467-1638 | It is idempotent |
| `Configuration.EmptyLayerKeeps` | src/mmaudit/config.py:1859-1871 | Re-applying an empty override layer to an effective configuration gives it back |

## Left out

- EvidenceReading.OpenRoot: links, junctions, devices and platform flags; only directory or regular file, link count, mode, size and identity are kept.
- EvidenceWriting.UnlinkCreatedFile: the race between its stat and its unlink; the code promises nothing there.
- EvidenceWriting.CreateFresh: failures before the created identity is recorded may leave the new file behind, as in the code.
- EvidenceTree.PlacedShows: needs a disk where every entry leads somewhere and no directory is reached in two ways.
- DeliveryVerification.VerifyCompleteForensicBundle: works on a wrapper that does not change, so its second pass, the held directory anchors and their revalidation, and permission bits are not modelled; a failing read is one failed call in `ForensicExport`.
- DeliveryVerification.CollectRunArtifacts: a name that the path normalizer would rewrite is refused here at once; the program refuses it in the directory inventory that always follows.
- SourceRun.ObserveSource: an owner name that the component test refuses is refused here; the program refuses it when it builds the prefixed bindings.
- ForensicExport.ExportCompleteForensicBundle: name and overlap checks on the destination, and writers outside the program, which are the subject of the `Evidence` modules.
- ForensicExport.Medium.PlaceFile: a second, coarser model of `copy_file_evidence` and `_write_file_content`, at the level of paths and without outside writers; `EvidenceTree` shows that every instant and result of the finer one is of the kind promised here, but the export does not call the finer methods.
- Configuration.ApplyOverrides: nested dictionaries are values, so aliasing between them is not captured; the allowlist of override paths is the independence precondition.
- PrivacyAuthority.Registry.LoadPrivacyRetentionConsent: path and file-metadata checks are one flag; concurrent callers are serialized by the lock and become steps of a run.
- ReleaseCollection.CollectReceipts: the local commands and their subprocesses are given outcomes; times come from a parameter.
- The live registry of source-provenance observations: the resolver takes its validated result.
- Printable-text, timestamp-format and length rules on text fields that both a builder and its validator copy unchanged.
- DeliveryVerification.ObserveCompleteRun: of the cross-artifact checks only the custody and root layout of the scheduler's journal are modelled, without its permission bits; the checks on the contents of journals and reports are one abstract predicate.
- The other generated Solidity (positions, proxies, registry, strategy) and token transfers.
- The command line, logging, network clients, language plugins and the remaining acceptance portfolios.
