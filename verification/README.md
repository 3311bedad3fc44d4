# Release tooling, modelled and proved

This project models the parts of the train-factory release tooling whose promises are hard to see from
the code, and proves those promises with Dafny. `dafny verify dfyconfig.toml` checks everything.

**The Web promotion** (`scripts/promote_web_release.py`) swaps two files, the image selection and the
Compose manifest, as if they were one. It writes a journal ahead of every visible change, sets old files
aside as claims, renames without replacing, and retires the journal in stages. A failed promotion rolls
back in the same process; a crashed one is recovered by the next start.

- `SelectionFiles` models the text of a selection, its two parsers and the writer.
- `Documents`, `Journals`, `Recovery` hold the values and the pure decisions: selections, manifests,
  journals, the order of journals, the classification of a target, and what recovery checks. The last
  gives the invariant `Sound` (a directory at rest, or one with a journal that can be carried out), the
  narrower `Restartable` (which a restart also admits), and the abstraction `Installed` (the pair of files
  that a sound directory stands for).
- `Protocol` and `Runs` treat the promotion as a step system over the directory. `Runs` proves the
  whole-run theorems: the directory refines a single register that holds one pair and that only a
  committing journal writes.
- `RuntimeDirectory`, `Restart`, `WebPromotion` are the program itself, as a class with a mutable
  directory and methods that may fail or die after every change. Their contracts speak of every outcome,
  so they hold at every crash point, and every directory they leave is one that a run of the step system
  reaches. `Lives` chains any number of runs and carries the whole-run theorems over to the program.

**Manifests** (`scripts/compose_manifest.py`): `FrozenManifest` models freezing and verifying as the loops
they are. `RecordedRoles`, `RecordedInputs` and `FilesApart` say, on the records and the file tree alone, what
a frozen or verified manifest records: which roles, from where, under which rules, and no file twice.
`FreezeVerify`, `OtherMoments` and `ManifestRoundTrip` prove that freezing and verifying agree, also at
different times and from different working directories; `MisplacedPaths` has the two cases in which they do
not.
`RollbackCapture` models the capture that undoes itself.

**Smaller cores**: `MigrationGraph` (the depth-first check of migrations), `Handoff` (the
cancellation-safe await), `ReportScan` (two rounds of percent-decoding), `QuotedPath` and `DollarSigns`
(codecs and the variable scanner), `SecretBundle` (the journaled deletion of secrets), `ReleasePreparers`
(the lock file between preparers), `DependencyLock` (the grammar of lock files).

## How the world is modelled

- A rename or unlink is one atomic step. Nothing else changes the runtime directory between a check and
  the rename that follows it. Inodes are arbitrary numbers; no proof needs them to be fresh.
- A digest is a constructor over the payload it was taken of: digests are injective.
- A start refuses to work while a temporary file exists (`scripts/promote_web_release.py:437-445`), so a
  run that finds one changes nothing.
- Docker, HTTP, permission and lock checks are hazards: they may pass or fail at any time. A `calm` run is
  one in which no hazard strikes; the contracts then promise success.
- Whether the new release passes the two checks that decide a promotion, of the prepared manifest
  (`scripts/promote_web_release.py:3560-3562`) and of the running deployment (`3597-3664`), is given by
  `Runtime.passes`. A calm run may still fail these.
- An image id determines the labels of the image (`Host.labels`).
- `Runtime.Hazard`, `Host.Hazard` and `Host.Others` stand for everything outside the model. The methods that
  use them are proved for every answer. `Bundle.Hazard` follows a script of faults, and its methods are
  proved for every script; one script shows an end that the program really has.
- An operator removes the lock file of a release preparer only when its owner is gone
  (`ReleasePreparers.ClearStale`). `MutualExclusion` depends on that.

## What came out differently from what one might expect

- The plans `replace` and `publish-old` of the recovery classification would install a fresh inode. Both
  callers refuse them (`scripts/promote_web_release.py:2711-2717` and `3008-3018`), so no admitted state
  has them.
- A promotion accepts selections that recovery does not. It reads `.runtime/release.env` as any environment
  file, past blank lines and comments and in any order of keys (`scripts/compose_manifest.py:619-640`), and
  puts the bytes into its journals. Recovery reads them there with the closed parser and wants the keys in
  order (`scripts/promote_web_release.py:2464-2478`, `2600`). From a text that is not closed a promotion still
  succeeds, and so does its rollback, but a crash in between leaves a journal that every later start refuses:
  `Runs.CutsOfAPromotion` is the exact condition, `WebPromotion.DiesAndRestarts` and `Lives.StuckHistory` are
  what happens then. A successful promotion leaves a closed text, and from a closed text this cannot happen
  (`Lives.PromotionTames`, `Lives.HistoryRestartable`).
- When the check after the rename of a committing journal fails, the rename is taken back. Such a journal
  has been at the canonical name for a moment and still does not count: the new pair is installed exactly
  when a committing journal reached the canonical name and was not taken back. `WebPromotion.TakenBack` is
  such a run.
- Freezing and verifying disagree in two families of cases, both in continuous-integration mode, where paths
  are compared as they are given (`scripts/compose_manifest.py:511-537`, `1083-1092`). A relative path that
  reads as required, used from a working directory below `.runtime`, leads to another place. If it is the
  selection's, verification compares the recorded absolute path and rejects, wherever it is called from
  (`MisplacedPaths.FreezesWithoutVerifying`). If it is the manifest's own, verification accepts that file
  only by the same text from the same directory (`MisplacedPaths.PublishesWithoutVerifying`).
  `ManifestRoundTrip.FreezeThenVerify` and `VerifyByAbsolutePath` say that there is no other.
- The depth flag of the report scan is cautious: it can be set although two rounds found every decoding
  (`ReportScan.FlagIsCautious`, on the text `+%2541`). It errs on the safe side only.
- A bundle whose environment file is named like the temporary file of the deletion journal can be created
  and never be deleted: every call fails before it begins (`SecretBundle.NeverDeleted`;
  `SecretBundle.RerunFinishes` says that there is no other such bundle).
- If an existence probe of the failure handler itself raises (`scripts/materialize_compose_secrets.py:582`),
  the exception escapes as it is. The order of deletion still holds. A rerun is accepted exactly when the
  state file is still there (`SecretBundle.RerunAccepted`); it can be gone
  (`SecretBundle.DeletesAllButTheDirectory`).
- A publication that fails and cannot remove its own file leaves it there, and the rollback capture does
  not report that as a failed cleanup (`scripts/compose_manifest.py:2094-2106`). The field `left` of
  `RollbackCapture.Host` names these files.

## Model

| member | source | states |
|---|---|---|
| Documents.ForwardSelection | scripts/compose_manifest.py:2161-2197 | the forward selection has the Web image, id and revision of the request, and the API image, id and effective revision of the old selection |
| Documents.Restamp | scripts/promote_web_release.py:1328-1352 | only the digests of image-selection records change, and they become the digest of the new selection |
| Documents.ForwardIsCoherent | scripts/promote_web_release.py:1328-1352 | forwarding a manifest that names its selection always succeeds and gives one that names the new selection and is the same in everything else |
| Documents.ForwardComposes | scripts/promote_web_release.py:1328-1352 | only the last selection counts; forwarding to the selection already named changes nothing |
| SelectionFiles.ParseEnvironmentFile | scripts/compose_manifest.py:619-640 | the loop reads the entries of an environment file, past blank lines and comments |
| SelectionFiles.ParseClosedEnvironment | scripts/compose_manifest.py:603-616 | the loop of the closed parser reads one entry from every line or refuses |
| SelectionFiles.OpenIsExact | scripts/compose_manifest.py:619-640 | the parser of environment files reads some entries if and only if the lines that are neither blank nor comments are these entries written one a line, with distinct valid keys and no control characters |
| SelectionFiles.SkippedIs | scripts/compose_manifest.py:619-640 | a line is passed over exactly if it has only blanks, or only blanks before a number sign |
| SelectionFiles.PromotionReadsWhatIsSaid | scripts/compose_manifest.py:709-757 | a selection is read exactly if the entries give each of its parts under the part's own key, no other keys occur, and it is valid; for both key sets and in any order |
| SelectionFiles.ClosedReadsEveryLine | scripts/compose_manifest.py:603-616 | a text that the closed parser accepts has no blank line and no comment, and its entries are its lines in order |
| SelectionFiles.RecoveryReadsClosed | scripts/promote_web_release.py:2464-2478 | recovery reads a selection text if and only if a promotion reads it, no line is blank or a comment and the keys are in order; then both read the same |
| SelectionFiles.PayloadIsWhatIsRead | scripts/promote_web_release.py:2464-2478 | the payload of a text says exactly what each of the two readers makes of it |
| SelectionFiles.WrittenIsRead | scripts/compose_manifest.py:603-640 | both parsers read back any entries with distinct keys written one a line |
| SelectionFiles.RenderedIsRead | scripts/promote_web_release.py:1310-1315 | both readers read back every valid selection that a promotion writes, as a closed text |
| SelectionFiles.CommentedIsNotClosed | scripts/promote_web_release.py:2464-2478 | with one comment before it, the same text is still what a promotion reads and no longer what recovery reads |
| Journals.ChainRises | scripts/promote_web_release.py:1355-1384 | along a chain of journals the rank rises by exactly one, so a chain has at most five, all of one transaction, and only the last may be committing |
| Journals.CompleteChain | scripts/promote_web_release.py:1637-1682 | a chain from a first to a committing journal has exactly five journals |
| Journals.RankNeverFalls | scripts/promote_web_release.py:1637-1682 | among journals seen one after the other, each the one before or its successor, the transaction stays and the rank falls never, and stays only while the file is the same |
| Journals.SupersededNeverReturns | scripts/promote_web_release.py:1637-1682 | among such journals a superseded one does not come back |
| Journals.SuccessionIsAChain | scripts/promote_web_release.py:1637-1682 | such journals, each taken once, form a chain, so there are at most five |
| Protocol.AdmittedIsLocated | scripts/promote_web_release.py:1796-1834 | a directory that recovery admits under a journal is one in which the lookup finds that very journal, and no other |
| Protocol.OutcomeCoherent | scripts/promote_web_release.py:2583-2674 | the pair that a validated journal settles on is coherent and has the old API |
| Protocol.ForwardStepKeeps | scripts/promote_web_release.py:3346-3695 | every forward step keeps the directory sound; only the committing journal changes the installed pair, both files at once |
| Protocol.RecoveryStepKeeps | scripts/promote_web_release.py:1910-1992 | every recovery step keeps the directory sound and the installed pair, and leaves exactly one change less |
| Protocol.StepKeepsSound | scripts/promote_web_release.py:2728-3909 | every step of promotion, rollback, recovery and retirement keeps the invariant; authority begins only with a first journal, and then stays, passes to a successor or is retired |
| Runs.DirectoryRefinesRegister | scripts/promote_web_release.py:3346-3909 | after every event of every run with steps, undone renames and crashes, the directory is sound and stands for the pair in a register that only committing journals write |
| Runs.RestIsTheRegister | scripts/promote_web_release.py:2728-3165 | crash atomicity: whenever no journal is left, the directory holds exactly the register's pair, so both files are old or both are new |
| Runs.ApiNeverChanges | scripts/promote_web_release.py:2611-2632 | in every directory of every run the API image, image id and effective revision are those of the first |
| Runs.WriteAhead | scripts/promote_web_release.py:3346-3362 | in every directory of every run, a file at a target or prepared name is the old one or carries the inode recorded in the journal with authority |
| Runs.NoLoss | scripts/promote_web_release.py:3491-3599 | in every directory of every run, while the journal is applying each old file is at its path or in its claim under its own inode, and while it is committing both new files are in place |
| Runs.SingleAuthority | scripts/promote_web_release.py:1796-1834 | in every directory of every run, any second journal is the claimed predecessor that the canonical one names, of rank exactly one less |
| Runs.AuthorityOnlyAdvances | scripts/promote_web_release.py:3364-3470 | every event of a run that keeps a journal and takes no publication back leaves the authority or passes it to its accepted successor |
| Runs.AuthorityAlongARun | scripts/promote_web_release.py:3364-3470 | along every stretch of every run with a journal and no publication taken back, the journals with authority form a chain of at most five, the rank rises by exactly one per publication, and a superseded journal never gets authority back |
| Runs.TransactionStays | scripts/promote_web_release.py:1637-1682 | as long as there is a journal it is one of the same transaction, also when a publication is taken back |
| Runs.CutsOfAPromotion | scripts/promote_web_release.py:2583-2632 | a crash at any point of a promotion leaves a journal that a restart admits if and only if the selection it started from was a closed text |
| Runs.TameForever | scripts/promote_web_release.py:2583-2632 | starting from a closed selection text, a restart admits every directory of every run |
| Runs.NextStepEnabled | scripts/promote_web_release.py:2693-2725 | recovery that is admitted is never stuck: in every sound directory with a journal its next change is allowed |
| Runs.Recovered | scripts/promote_web_release.py:2728-3165 | recovery from any sound directory ends without a journal and keeps the installed pair |
| Runs.RecoveryConverges | scripts/promote_web_release.py:1910-1992 | every recovery step, in any order and however often cut short, leads to the same rest with exactly one change less |
| Runs.RecoveredIsRest | scripts/promote_web_release.py:3008-3056 | the end of recovery is exactly the two installed files, with no claim, prepared file or journal left |
| Runs.RestIsNothingRemaining | scripts/promote_web_release.py:2728-3165 | nothing remains to be done exactly when no journal has authority |
| RuntimeDirectory.Runtime.MoveNoReplaceOwned | scripts/promote_web_release.py:538-569 | whatever the outcome, the disk is unchanged or the owned file moved to a name that was unused |
| RuntimeDirectory.Runtime.UnlinkOwned | scripts/promote_web_release.py:825-893 | whatever the outcome, the live directory is unchanged or lost exactly the owned file, under the guard; a normal end removes that file from the disk and nothing else |
| RuntimeDirectory.Runtime.UnlinkOwnedPayload | scripts/promote_web_release.py:896-916 | a file is deleted only if it still has the expected inode and payload |
| RuntimeDirectory.Runtime.PublishAbsent | scripts/promote_web_release.py:1004-1157 | require-absent mode: the staged file appears at an unused name or nothing changes, at every intermediate state; a normal end, and a failure that nothing disturbs, leaves no temporary file |
| RuntimeDirectory.Runtime.PublishConditional | scripts/promote_web_release.py:1004-1157 | conditional mode is a compare-and-swap: untouched, set aside, or swapped, and no other live entry ever changes; a normal end, and a failure that nothing disturbs, leaves no temporary file |
| RuntimeDirectory.Runtime.SwapIn | scripts/promote_web_release.py:1092-1157 | the old file leaves both path and claim at no time; it is set aside before the new one is visible |
| RuntimeDirectory.Runtime.AbandonTemporary | scripts/promote_web_release.py:1143-1144 | a normal end leaves no temporary file under the name, and the clean-up of an own file ends normally if nothing goes wrong |
| Restart.RestoreTarget | scripts/promote_web_release.py:2693-2725 | every state on the way keeps the journal in charge and has fewer changes left; on success the old file is at its path with no claim |
| Restart.RestoreBoth | scripts/promote_web_release.py:3008-3036 | both targets are restored under the same journal, at every cut |
| Restart.CommitJournal | scripts/promote_web_release.py:1160-1307 | at every point of retirement the directory is admitted by recovery with the same installed pair; a normal end leaves no journal |
| Restart.CleanAndRetire | scripts/promote_web_release.py:3058-3165 | prepared file, claims, predecessor and journal go in an order that keeps every intermediate state recoverable |
| Restart.FinishCommit | scripts/promote_web_release.py:2882-3000 | a committed transaction is finished with the new pair, never undone |
| Restart.UndoTransaction | scripts/promote_web_release.py:3001-3165 | an applying transaction is undone to the old pair |
| Restart.Recover | scripts/promote_web_release.py:2728-3165 | what a restart does not admit is left untouched; what it admits stays sound with fewer changes left, of the same transaction, and a calm recovery comes to rest |
| WebPromotion.NextSupersedes | scripts/promote_web_release.py:3295-3345 | each journal that a promotion writes is an accepted successor of the one before, of the next rank |
| WebPromotion.PublishJournal | scripts/promote_web_release.py:3364-3417 | at every cut one journal has authority and the installed pair is the old one's outcome or the next one's |
| WebPromotion.StageAndRecord | scripts/promote_web_release.py:3491-3545 | an inode is recorded in a published journal before its file is visible anywhere |
| WebPromotion.InstallTarget | scripts/promote_web_release.py:3491-3599 | swapping one target keeps the old pair installed at every cut |
| WebPromotion.InstallAll | scripts/promote_web_release.py:3491-3599 | all three files go in under three recorded identities; until then the old pair stays installed; a normal end means that the release passed both checks, and with nothing else going wrong it fails exactly if it fails one, with a journal that can be rolled back |
| WebPromotion.DecideCommit | scripts/promote_web_release.py:3660-3695 | the transaction is committed exactly when the committing journal is in charge, and then the new pair is installed |
| WebPromotion.RunTransaction | scripts/promote_web_release.py:3491-3754 | not committed means undoable with the old pair, committed means the new contents, at every end; a release that fails a check is never committed |
| WebPromotion.RollBack | scripts/promote_web_release.py:3755-3909 | the rollback only moves towards rest; a normal end has the old pair and no journal; from any state before the decision it succeeds if nothing more fails, whatever the layout of the old selection |
| WebPromotion.RunAndReport | scripts/promote_web_release.py:3491-3909 | a transaction and its rollback end as their report says, at a directory that a run of the protocol reaches; with nothing else going wrong a release that fails a check ends with the old pair restored |
| WebPromotion.NewTransaction | scripts/promote_web_release.py:3240-3345 | the journal's material agrees with the pair found, remembers it, and its new contents are the requested forwarding of that pair |
| WebPromotion.PublishFirst | scripts/promote_web_release.py:3346-3362 | the first journal appears or nothing changes, and the old pair stays installed |
| WebPromotion.PromoteSettled | scripts/promote_web_release.py:3168-3909 | from a directory at rest, with a closed selection text or not, every end of the run is a `Life` of its report; a calm run promotes a release that passes its checks and restores the old pair otherwise |
| WebPromotion.PromoteWebRelease | scripts/promote_web_release.py:3168-3909 | one run on any directory: refused and untouched if unsound, if no restart admits its journal, if the arguments are invalid or a temporary file is there; otherwise sound at every end and reached by a run of the protocol, the pair kept or wholly forwarded as the report says; a release that fails a check is never installed; if nothing goes wrong a release that passes is promoted and for one that fails the old pair is restored |
| WebPromotion.DiesAndRestarts | scripts/promote_web_release.py:3346-3362 | from any selection text that is not closed: a process that dies after its first journal leaves one that even a calm restart refuses, with both old files in place |
| WebPromotion.LooseDirectory | scripts/promote_web_release.py:2464-2478 | a concrete directory at rest with such a text |
| WebPromotion.TakenBack | scripts/promote_web_release.py:538-569 | wherever a promotion stands before its decision, the committing journal can reach the canonical name and be taken back, and then the old pair is installed |
| WebPromotion.InstallsEverything | scripts/promote_web_release.py:3491-3599 | a calm promotion gets there from any directory at rest |
| Lives.HistoryKeepsApi | scripts/promote_web_release.py:3168-3909 | over any number of runs the API never changes, the installed pair is coherent, and a directory without a journal holds exactly that pair |
| Lives.PromotedIsServing | scripts/promote_web_release.py:3168-3909 | after a promotion that succeeded the installed selection has the Web image, id and revision that were asked for beside the API of before |
| Lives.OneRequestInstalled | scripts/promote_web_release.py:3168-3909 | the installed pair is the initial one or the whole work of one run that every later run kept; that run's release passed its checks, and its requested Web image, id and revision stand beside the API of the beginning |
| Lives.HistoryFollowsProtocol | scripts/promote_web_release.py:3168-3909 | whatever the ends of any number of runs of the program, each directory left is one that a run of the protocol reaches from the first |
| Lives.HistoryRegister | scripts/promote_web_release.py:3168-3909 | between any two directories that the program leaves there is a run of the protocol whose committing journals wrote the pair that the later one stands for |
| Lives.HistoryPromises | scripts/promote_web_release.py:3346-3599 | write-ahead, no loss and single authority hold in every directory that the program leaves, at every point at which it may die |
| Lives.CrashIsRestartable | scripts/promote_web_release.py:2583-2632 | a run that starts without a journal and leaves one leaves a directory that a restart admits exactly if the selection it found was a closed text |
| Lives.PromotionTames | scripts/promote_web_release.py:1310-1315 | a successful promotion leaves a closed text, whatever it found |
| Lives.HistoryRestartable | scripts/promote_web_release.py:2583-2632 | once the selection is a closed text, a restart admits whatever any later runs leave |
| Lives.StuckHistory | scripts/promote_web_release.py:3210-3228 | a directory whose journal no restart admits stays as it is over any number of runs |
| FrozenManifest.FreezeInputs | scripts/compose_manifest.py:1298-1402 | the freezing loops succeed exactly on freezable inputs (`FilesApart.FreezableIsApart` says which these are) and give the frozen manifest and all input identities |
| FrozenManifest.VerifyManifestInputs | scripts/compose_manifest.py:1554-1627 | the verifying loop returns the stored manifest exactly when its shape and every file it records check out (`FilesApart.FilesVerifyIsApart` says when that is) |
| FrozenManifest.VerifyItems | scripts/compose_manifest.py:1577-1618 | one loop over Compose and environment records decides acceptance, equality of records and distinctness of files |
| FrozenManifest.StructuredKinds | scripts/compose_manifest.py:1463-1534 | in a well-shaped manifest Compose and environment records are told apart by their roles |
| FilesApart.FreezableIsApart | scripts/compose_manifest.py:1298-1402 | stated on the tree: inputs freeze if and only if settings, paths and rules are met and the files at any two positions of the manifest are there and have different inodes; two roles with one file are refused |
| FilesApart.FilesVerifyIsApart | scripts/compose_manifest.py:1554-1627 | the same for verification: the records are as observed, the rules are met and the files at any two positions have different inodes |
| RecordedRoles.EveryRoleOnce | scripts/compose_manifest.py:398-494 | a manifest of the verified shape has exactly one record of every role that a deployment of its settings uses and no other, all secrets included; exactly the secret ones are sensitive; the Compose files lie in the order in which they override each other |
| RecordedInputs.FrozenComesFrom | scripts/compose_manifest.py:1298-1402 | every file of a frozen manifest is at the path that its role, the caller or the text of a recorded environment file gives |
| RecordedInputs.FrozenMeetsRules | scripts/compose_manifest.py:1298-1402 | every recorded input meets the rules for its path, text and role, and the environment files meet the rule across roles, each under its own role |
| RecordedInputs.VerifiedMeetsRules | scripts/compose_manifest.py:1554-1627 | the same for every manifest that verifies, whose inputs are recorded by their absolute paths |
| RecordedInputs.VerifiedComesFrom | scripts/compose_manifest.py:1554-1627 | every other record of a manifest that verifies is of the bootstrap file or of a file that the inputs refer to now |
| FreezeVerify.SameFilesTaken | scripts/compose_manifest.py:1298-1627 | freezing and verifying read the same files in different orders and find the same clashes |
| FreezeVerify.FrozenIsStructured | scripts/compose_manifest.py:1463-1534 | every frozen manifest has the shape that verification asks for, including the roles of referenced files |
| FreezeVerify.VerifiedIsRecorded | scripts/compose_manifest.py:1537-1627 | under any circumstances, verification succeeds only if every recorded file has the recorded bytes |
| FreezeVerify.ChangeIsRejected | scripts/compose_manifest.py:1554-1627 | once any recorded Compose, environment, bootstrap or referenced file is gone or has other bytes, verification fails at every later time |
| OtherMoments.VerifiesThen | scripts/compose_manifest.py:1554-1627 | a manifest of absolute paths verifies from every working directory or from none, as long as the rules answer the same |
| OtherMoments.FrozenVerifiesLater | scripts/compose_manifest.py:1298-1627 | a manifest frozen at one time verifies at any other, from any working directory, if and only if a continuous-integration selection really is at its prescribed path |
| OtherMoments.FrozenThen | scripts/compose_manifest.py:1298-1402 | freezing again from a working directory from which the given paths lead to the same files succeeds alike and gives the same manifest |
| ManifestRoundTrip.FreezeManifest | scripts/compose_manifest.py:1149-1414 | the published manifest is the frozen one; a failure leaves the target as it was, removed, or replaced if the removal fails too; success or failure, no recorded file is touched; a calm run succeeds exactly when the inputs and the target allow it |
| ManifestRoundTrip.StillFrozen | scripts/compose_manifest.py:1298-1402 | freezing again at another time gives the same manifest as long as no recorded file changes and the given paths lead to the same places |
| ManifestRoundTrip.InputsStay | scripts/compose_manifest.py:1185-1200 | publication never overwrites or removes one of the inputs |
| ManifestRoundTrip.FreezeThenVerify | scripts/compose_manifest.py:1298-1627 | freeze, publish, verify at any later time from any working directory with unchanged recorded files: the same manifest comes back if and only if its path as given then meets the rules and the selection is where it must be |
| ManifestRoundTrip.VerifyByAbsolutePath | scripts/compose_manifest.py:511-537 | by its absolute path it verifies from everywhere if and only if, in continuous integration, both the manifest and the selection are where they must be |
| MisplacedPaths.FreezesWithoutVerifying | scripts/compose_manifest.py:511-563 | a concrete deployment, with a root, a working directory below its runtime directory and the containment rules, that freezes and does not verify from any working directory although nothing changed |
| MisplacedPaths.PublishesWithoutVerifying | scripts/compose_manifest.py:521-537 | the same deployment with the selection in place and the output given relatively: it freezes and publishes, and from every other working directory no path of that file verifies |
| MisplacedPaths.ExampleExists | scripts/compose_manifest.py:511-563 | there are a machine and calls that follow the rules of the example |
| RollbackCapture.Host.CaptureService | scripts/compose_manifest.py:2520-2634 | the tag is an accounted intent before it exists, so every failure position leaves it in the account; a captured service has its new tag, its image and the revision of the image's label |
| RollbackCapture.Host.UnlinkOwnedOutput | scripts/compose_manifest.py:2109-2123 | an output is removed only while it is the published inode; true means it is not there any more |
| RollbackCapture.Host.Undo | scripts/compose_manifest.py:2725-2772 | no tag that points at another image and no file of another inode is removed; without a reported failure every intent and owned output is gone |
| RollbackCapture.Host.CaptureRollback | scripts/compose_manifest.py:2499-2772 | a failure without reported cleanup failure restores the tags exactly and every output whose publication returned; whoever interferes, the undoing removes only tags that point at the captured image and files of the published inode; success adds exactly two tags and two files, and the published selection is a valid one whose API image, id and revision are the new tag, the id and the label of the image that the API service runs, and likewise for the Web; a calm capture of two running services with labelled images succeeds |
| RollbackCapture.TagsOfCapturesDiffer | scripts/compose_manifest.py:2605 | two captures of different releases or with different tokens have no tag in common, and the two tags of one capture differ |
| RollbackCapture.TagsRestored | scripts/compose_manifest.py:2725-2764 | undoing all intents gives back the tags of the beginning, and no older tag is ever lost |
| RollbackCapture.OutputsRestored | scripts/compose_manifest.py:2765-2768 | undoing all owned outputs gives back the outputs of the beginning |
| MigrationGraph.Search.Visit | scripts/verify_deployment.py:550-562 | the visit raises only on a real cycle and otherwise puts the revision after all its parents |
| MigrationGraph.VisitAll | scripts/verify_deployment.py:546-564 | the search raises exactly when the graph has a cycle |
| MigrationGraph.OrderedIsAcyclic | scripts/verify_deployment.py:546-564 | an order with all parents first rules out cycles of any length |
| MigrationGraph.HeadWalk | scripts/verify_deployment.py:565-570 | with a sole head, every revision is reached from it by a walk over parents |
| MigrationGraph.RepositoryHead | scripts/verify_deployment.py:546-570 | a head is returned exactly for non-empty, parent-closed, acyclic graphs with one revision that is nobody's parent, and every revision is its ancestor |
| Handoff.EveryInterleaving | train_factory/api/concurrency.py:15-57 | in every interleaving of completion and cancellations, control returns only after the inner task is done and a value is delivered only without a cancellation |
| Handoff.FateOfTheValue | train_factory/api/concurrency.py:15-57 | a produced value is returned once or handed to the clean-up once, never both, by whether the caller was ever cancelled |
| Handoff.EndsOnceInnerIsDone | train_factory/api/concurrency.py:15-57 | once the inner task is done, the caller's next turn is its last |
| ReportScan.DecodedViews | scripts/validate_test_report.py:256-278 | for any decoders the views are exactly what two decodings reach, at most seven, and closed under both decoders when the depth flag is unset |
| ReportScan.ClosedHoldsAll | scripts/validate_test_report.py:256-278 | a closed set of views holds every text of every decoding depth |
| ReportScan.ScanTexts | scripts/validate_test_report.py:281-298 | an empty verdict means that no decoding of any depth of any text breaks a rule; the rules found are exactly those of the views; there is no verdict exactly if no rule is broken within two decodings and some text that takes two is changed by a third |
| ReportScan.FlagIsCautious | scripts/validate_test_report.py:270-278 | for the program's own decoders and the text `+%2541` two rounds find everything and the flag is set all the same |
| QuotedPath.DecodeSingleQuotedPath | scripts/compose_manifest.py:566-600 | the index loop computes the reader's meaning of the literal |
| QuotedPath.WriteRead | scripts/materialize_compose_secrets.py:89-92 | writing back what was read gives the accepted literal exactly |
| QuotedPath.ReadWrite | scripts/compose_manifest.py:566-600 | reading what was written gives that path or a rejection, and is accepted exactly for non-empty paths with even backslash runs before a quote or the end |
| QuotedPath.QuotingIsExact | scripts/compose_manifest.py:566-600 | a literal is read as a path if and only if it is that path between quotes with its quotes escaped, and the path is not empty, has no NUL, carriage return or line feed, and only even runs; the writer refuses exactly these characters |
| DollarSigns.ComposeVariables | scripts/compose_manifest.py:374-395 | the run-length scanner finds the variables of a left-to-right scanner that consumes dollar pairs: the names behind odd runs of dollar signs, with or without a brace |
| DollarSigns.InterpolatedIs | scripts/compose_manifest.py:374-395 | that scanner finds a name exactly if it stands, as the longest name there, behind an odd maximal run of dollar signs, directly or after a brace |
| DollarSigns.DecodeComposeLiteralPath | scripts/validate_compose_config.py:166-181 | the index loop computes the decoder's meaning of the string |
| DollarSigns.LiteralPathIsExact | scripts/validate_compose_config.py:166-181 | acceptance exactly for non-empty strings with even dollar runs; doubling gives the string back, and the scanner finds no variable in it |
| DollarSigns.LiteralPathOfDoubled | scripts/validate_compose_config.py:166-181 | decoding a doubled path gives the path |
| SecretBundle.Bundle.WritePrivateFile | scripts/materialize_compose_secrets.py:228-249 | a new file is written whole or partly, or not at all, and nothing else changes; a failed write leaves a partial file only if removing it failed too |
| SecretBundle.Bundle.WriteCleanupJournal | scripts/materialize_compose_secrets.py:438-458 | the mark is set or not; a failure that is no rollback failure leaves no temporary file |
| SecretBundle.Bundle.DeleteBundle | scripts/materialize_compose_secrets.py:574-594 | while members are missing the mark is there, or nothing else is left; a plain failure has the marked state file back; every other end but success has its own cause |
| SecretBundle.Bundle.CleanupSecretBundle | scripts/materialize_compose_secrets.py:461-595 | any directory: refused untouched, or orderly at every end; a handled failure is accepted by a rerun, and an escaped error leaves an accepted, an absent or an empty directory; a bundle that holds the temporary's name is never changed; a calm call has exactly the predicted outcome; every outcome of an accepted bundle but success needs a fault at one of the places that explain it, so a failed rollback needs more than failing deletions: if only these fail, the bundle is gone or a rerun accepts it |
| SecretBundle.DeletionOrder | scripts/materialize_compose_secrets.py:568-595 | over any calls and crashes, a missing member means that the state file says so or that no member is left |
| SecretBundle.SecretsOnlyGo | scripts/materialize_compose_secrets.py:573-595 | no deleted secret comes back and none changes |
| SecretBundle.RerunAccepted | scripts/materialize_compose_secrets.py:537-595 | after any calls without a failed rollback or death, the next call is accepted exactly when the state file is still there |
| SecretBundle.HandledKeepsState | scripts/materialize_compose_secrets.py:574-595 | it is still there if every failure was a handled one |
| SecretBundle.DeletesAllButTheDirectory | scripts/materialize_compose_secrets.py:574-594 | the command itself, when removing the directory fails and the next probe raises, ends with an escaped error and an empty directory, which no later call accepts |
| SecretBundle.StuckForever | scripts/materialize_compose_secrets.py:438-441 | a bundle with a member of the temporary's name stays as created over any calls with any outcomes |
| SecretBundle.RerunFinishes | scripts/materialize_compose_secrets.py:537-595 | after any calls without a failed rollback or death that left the state file, the next call is accepted, and a calm one removes the bundle exactly when no member has the temporary's name |
| SecretBundle.NeverDeleted | scripts/materialize_compose_secrets.py:438-441 | a concrete bundle that is created as any other and that no calls, however many and however they end, change |
| ReleasePreparers.MutualExclusion | scripts/prepare_public_release.py:958-1003 | in every run of any number of preparers at most one is between acquiring and releasing the lock |
| ReleasePreparers.RemovesOnlyItsOwn | scripts/prepare_public_release.py:985-1003 | every removal of the lock file by a release removes the preparer's own |
| ReleasePreparers.PlanIsOfLastPass | scripts/prepare_public_release.py:1091-1129 | a plan on disk means that nobody passed the invalidation since its writer did |
| ReleasePreparers.PreparationCompletes | scripts/prepare_public_release.py:958-1003 | whenever the lock is free, an undisturbed preparer takes it, replaces the plan by its own and leaves the lock free |
| ReleasePreparers.StaleMeansAbandoned | scripts/prepare_public_release.py:965-1003 | a lock file without a living owner means that the owner was killed or one of its calls on the lock failed |
| DependencyLock.ValidateLock | scripts/check_dependency_locks.py:251-312 | no error exactly when the lines are a lock: blocks of one pin and at least one hash, distinct canonical names, allowed and complete pins |
| DependencyLock.ParseIsExact | scripts/check_dependency_locks.py:220-223 | a line parses to a pin exactly when it is one of the two ways to write it |
| DependencyLock.HashLineIsExact | scripts/check_dependency_locks.py:223 | a hash line is the prefix, 64 lower-case hexadecimal digits and perhaps the mark |
| DependencyLock.TakesAllowed | scripts/check_dependency_locks.py:251-298 | the walk takes a pin exactly if its name has no underscore or dot and is not a provider's, or in CPU mode is one of the three allowed ones, asks for no CUDA build and has the one allowed version of torch |
| DependencyLock.LockDecided | scripts/check_dependency_locks.py:251-312 | the walk with its three variables decides the grammar of blocks, in both modes |

## Left out

- Lives.HistoryRegister: the run of the protocol is some run between the two directories, not a record of the changes that the program itself made, which it keeps no trace of.
- How the bytes of a selection are split into lines and decoded, beyond telling different texts apart.
- Docker, Git, HTTP and PowerShell calls, permission hardening and Windows handles: foreign effects, modelled as hazards.
- JSON, base64, SHA-256, YAML and regular-expression internals: payloads are parsed values, patterns are character predicates.
- The window between the `stat` and the `unlink` of a retired file (`scripts/promote_web_release.py`, `_delete_isolated_owned`): it is open to a hostile process, and nothing is claimed about one.
- A hard crash inside the deletion journal while its temporary file exists: a rerun refuses that directory by design; the order of deletion is proved for it, restartability is not.
- The searches over the whole lock text before its lines are walked (`scripts/check_dependency_locks.py:238-249`) and the splitting into lines: the grammar is about lines.
- The rules about single inputs of a manifest (`_validate_input_path`, `_validate_role_source`, `_validate_cross_role_identity`): arbitrary functions in `FrozenManifest`, except for the exact-path rule, which matters to the agreement.
- RollbackCapture.Host.CaptureRollback: the verifications of the source and of the captured manifest and of the credentials around a capture are hazards, and the captured manifest is an argument.
- The other modes of `_atomic_replace`, which a promotion does not use.
- The order in which secrets are deleted within a bundle: the model takes any order.
- The remaining scripts, argument parsers and `main` functions, and the training, authentication and Web configuration code: thin wrappers that would only add easy members.
