# Lific: verified model

A Dafny model of the parts of the Lific server where correctness spans several
functions, processes or restarts, with proofs of what each of them is for.

- **API keys** (`key_text`, `key_table`, `key_validation`, `key_minting`): the
  token and verifier texts as printer and parser; the key table under insert,
  revoke, rotate and in-place migration; any number of concurrent validations
  interleaved with everything that can change a row; and minting from a browser
  session against account lockdown. SHA-256, BLAKE3 and Argon2 are parameters,
  with the hypothesis that they do not collide on issued tokens.
- **Project archiving** (`archive_protocol`, `archive_names`, `archive_restore`):
  the crash protocol that moves a project between the database and a file, as a
  state machine whose commits may be lost back to the last checkpoint; the
  choice of a file name; and what an archive and its unarchive give back.
- **Backups** (`backup_schedule`): processes that share one schedule through a
  directory and an advisory lock, with rotation and the scheduler's sleeps.
- **Exports** (`export_budget`, `export_json`, `export_json_reader`, `path_text`, `file_tree`,
  `export_tree`, `export_write`, `export_fresh`, `export_paths`,
  `project_export`): budgets, the JSON size bound and its writer, containment of
  output paths in a tree with symbolic links, writing and unpacking, slugs,
  folder walks and the paths of a whole project.
- **Checklists** (`checklist`): the fence-tracking scan against a declarative
  meaning.
- **Authorization** (`accounts`, `authz`): the project gates in their two modes.

`common` and `text` hold result types, UTF-8 sizes and decimal numbers. Code that
changes state step by step is a class or a method with loops, proved against a
specification; concurrent code is a state machine whose runs are sequences of
states.

`dafny verify dfyconfig.toml` checks the whole project.

## Where the code differs from what is said about it

- A failed archive may leave its file behind, although the module comment says
  it does not: it does exactly when the directory sync or the report after the
  rename fails, or the removal itself (`ArchiveProtocol.StrayFileIsExact`).
- After the lockdown of a bot alone, a recent session of its human can still mint
  the bot a key (`KeyMinting.LockdownByOwnerOfTheKey` says exactly when).
- The symbolic-link walk of an export looks only at what resolves before any
  directory is created. A target that goes up with `..` past a missing directory
  resolves only afterwards, so links below it are not seen
  (`ExportTree.ContainmentIsExact` gives the exact condition; a target without
  `..` always meets it).
- The JSON limit holds for every exported project, but not for every bundle
  within the budgets: whatever the paths, exactly up to 2620 files
  (`ExportJson.FilesTheLimitAlwaysTakes`).
- Titles and folder names are not shortened, so a long one makes an export to a
  directory fail part of the way (`ProjectExport.ExportIntoEmptyDirectory` gives
  the exact bound for names of 255 bytes).
- The newest archive may be there and a backup still written before it is an
  interval old: artifacts that cannot be read count as absent. A failed write of
  the same second then even removes that archive
  (`BackupSchedule.OneSharedSchedule` and `NewestIsLostExactly` say exactly when).
- A scheduler that keeps finding the lock taken retries from each attempt, not
  from the due time (`BackupSchedule.LatenessFromTheDueTime`).
- Archiving and unarchiving twice loses the actor of an audit row about an entity
  that no longer exists (`ArchiveRestore.ActorAfterTwoRoundTrips`).
- An archive entry whose path ends in a slash or backslash is skipped as a
  directory, while writing the bundle directly makes a file
  (`ExportWrite.UnpackingIsWriting`).
- The delete gate in legacy mode and `can_view_project` do not follow a bot to
  its owner (`Authz.BotAtTheDeleteGate`, `Authz.CanViewForABot`), and the other
  gates follow one step of ownership only, so a bot of a bot can exceed its human
  (`Authz.BotOfABot`).

## Model

| member | source | states |
|---|---|---|
| ArchiveProtocol.CrashSafety | src/archived_projects.rs:337-525 | In every run of concurrent archives and unarchives, after a power loss that keeps any prefix of the commits from the last checkpoint on and any directory the file system may settle on, each known project is either live or listed by a row whose file is present with the recorded checksum: never both, never neither |
| ArchiveProtocol.RemovalIsSafe | src/archived_projects.rs:493-506 | The file an unarchive removes is named by no row of any database a power loss could still bring back |
| ArchiveProtocol.MovesOneProject | src/archived_projects.rs:361-409 | A committed archive takes exactly the project its new row holds out of the live ones, a committed unarchive puts back exactly the project of the row it removes, and every other project stays live or not as it was |
| ArchiveProtocol.RunKeepsInv | src/archived_projects.rs:337-525 | The invariant behind these results holds in every state of every run |
| ArchiveProtocol.NextKeepsInv | src/archived_projects.rs:337-525 | Every step of every process, a failure and a crash included, keeps that invariant |
| ArchiveProtocol.ArchiveCommit | src/archived_projects.rs:361-389 | An archive commit adds one row, for a file no other row names, that holds exactly the project it deletes; every older row stays, every project is in one place, and every listed file is present, durable and matches its checksum |
| ArchiveProtocol.UnarchiveCommit | src/archived_projects.rs:469-491 | An unarchive commit brings back the project of the row it read, after it no row names that file, no other row changes, and every listed file is still present, durable and matches |
| ArchiveProtocol.PowerLossKeepsInv | src/archived_projects.rs:514-525 | Losing any commits since the last checkpoint, and settling the directory, keeps the invariant |
| ArchiveProtocol.StrayFileIsExact | src/archived_projects.rs:361-409 | The promise that a failed archive leaves no file, made exact: in every run, an archive that ends without commit, process death or power loss has written at most one file, and leaves it exactly when the directory sync or the report after the rename failed, or the removal did |
| ArchiveProtocol.FailedArchiveMayLeaveItsFile | src/archived_projects.rs:6-9 | A concrete run that breaks the promise: the directory sync after the rename fails and the file stays beside the live project |
| ArchiveProtocol.RemovalBeforeCheckpointLosesTheProject | src/archived_projects.rs:493-525 | Why the removal waits for a checkpoint: without one a power loss leaves a project neither live nor intact in the listing |
| ArchiveProtocol.CommitBeforeSyncLosesTheProject | src/archived_projects.rs:361-389 | Why the rows wait for the sync of the directory: committed before it, a power loss keeps the row and loses the file |
| ArchiveProtocol.UnarchiveCanFinish | src/archived_projects.rs:425-511 | From every state of every run in which no live project has the identifier, the locks are free and a process is idle, that process alone can bring the listed project back, unchanged, with its row gone, nothing else moved, the commit durable and the file removed |
| ArchiveProtocol.UnarchiveRefusesExactly | src/archived_projects.rs:459-491 | In every run the commit of an unarchive is possible exactly when its row is still listed and no live project has the identifier |
| ArchiveProtocol.ArchiveCanFinish | src/archived_projects.rs:343-389 | From every state of every run with the locks free, an idle process alone can move a live project into one new row whose file is on disk with the recorded checksum, and nothing else |
| ArchiveProtocol.ArchiveCanBeUndone | src/archived_projects.rs:390-406 | An archive that fails after its file is out can still leave database and directory as they were |
| ArchiveProtocol.DamagedFileIsRefused | src/archived_projects.rs:437-458 | A file that is missing or does not match its recorded checksum, whatever became of it, is never imported: the unarchive can only give up |
| ArchiveProtocol.NoLockIsLeftBehind | src/archived_projects.rs:337-525 | In every run a taken lock has a holder that is inside; nothing leaks one, and a crash frees it |
| ArchiveProtocol.ProjectsMayChange | src/archived_projects.rs:337-525 | The runs include ordinary creation under a free identifier, edits and deletions between the commits of the protocol |
| ArchiveProtocol.ProcessesMayStop | src/archived_projects.rs:337-525 | They include the death of a process anywhere, and refusals and errors wherever nothing has been changed yet |
| ArchiveProtocol.ArchivesMayFail | src/archived_projects.rs:361-409 | They include a failed sync, report or removal once the file is out, and both outcomes of the last sync |
| ArchiveProtocol.PowerMayFail | src/archived_projects.rs:514-525 | They include every power loss: any commits since the checkpoint kept, each name as processes saw it or as last synced |
| KeyText.AppendHex | src/auth.rs:36-42 | Appends exactly the lower-case hex digits of the bytes |
| KeyText.HexRoundTrip | src/auth.rs:36-42 | Reading the hex of any bytes gives the bytes back |
| KeyText.ParseTaggedVerifier | src/auth.rs:1149-1162 | The byte-filling loop accepts exactly the texts that are the prefix and 64 hex digits, and returns the digest they spell |
| KeyText.VerifierRoundTrip | src/auth.rs:1149-1170 | Parsing the encoding of a verifier gives the verifier |
| KeyText.EncodingIsCanonical | src/auth.rs:1149-1170 | The encoding of any accepted text is that text in lower case |
| KeyText.VerifiersDiffer | src/auth.rs:1164-1170 | Different digests have different encodings |
| KeyText.StoredVerifierIsSha256 | src/auth.rs:1193-1203 | A stored encoding is read as the SHA-256 kind with that digest, never as a legacy or unsupported text |
| KeyText.StoredTextsAreThese | src/auth.rs:1181-1203 | What a stored text is taken for: SHA-256 exactly the tag and 64 hex digits of either case, legacy exactly a text that starts as Argon2 does, anything else unsupported |
| KeyText.Base64RoundTrip | src/auth.rs:106-126 | Decoding base64url (section 5 of RFC 4648) undoes encoding |
| KeyText.Base64RoundTripBack | src/auth.rs:106-126 | Encoding undoes decoding: each 32-character payload has one spelling |
| KeyText.BuildToken | src/auth.rs:106-126 | Grows the token of the entropy: prefix, payload, dot, checksum |
| KeyText.TokenIsValid | src/auth.rs:1209-1239 | Every built token passes the checksum test |
| KeyText.ValidTokensAreBuilt | src/auth.rs:1209-1239 | Every text that passes the test is the token of some 24-byte entropy |
| KeyText.TokensDiffer | src/auth.rs:106-126 | Different entropies have different tokens, so that entropy is unique |
| KeyTable.Table.constructor | src/auth.rs:189-235 | The table starts empty |
| KeyTable.Table.Insert | src/auth.rs:189-235 | A name held by an active key or reserved by another owner is refused with the table unchanged; otherwise the tombstone goes and exactly the new row is added; either way it is the step the histories are made of |
| KeyTable.Table.Revoke | src/auth.rs:412-426 | Marks the rows of the name revoked, or refuses and changes nothing, as that step of a history does |
| KeyTable.Table.Rotate | src/auth.rs:439-496 | Replaces the row of a name without expiry or with a later one by one with the new key, the old expiry and the old owner unless a binding is given, or refuses with the table unchanged; without a binding it is that step of a history |
| KeyTable.Table.Migrate | src/auth.rs:1259-1279 | Compare-and-swap: the verifier changes exactly when the row is unchanged, unrevoked and has no expiry or a later one, and nothing else does |
| KeyTable.RowsRefineNames | src/auth.rs:189-235 | Every operation on rows is the same operation on a map from names to keys, and keeps names unique |
| KeyTable.NamesStayUnique | src/auth.rs:189-496 | Over every history of create, revoke and rotate at most one row exists per name |
| KeyTable.OwnerOfANameNeverChanges | src/auth.rs:189-496 | Over every history a name once taken stays taken, by the same owner |
| KeyTable.RotationReplacesTheKey | src/auth.rs:439-496 | A successful rotation leaves one row of the name: active, with the old owner and expiry and the new key; all other rows stay |
| KeyTable.RefusalsLeaveNoTrace | src/auth.rs:189-496 | Striking every refused operation from a history leaves a history of successes alone that ends in the same table |
| KeyTable.RotationRevivesARevokedName | src/auth.rs:439-496 | A limit: rotation asks about the expiry only, so it makes a revoked name active again |
| KeyValidation.RunKeepsInv | src/auth.rs:1259-1387 | In every interleaving of requests with insert, revoke, rotation with or without a new owner, assignment, deletion of rows and expiry, rows and requests stay faithful to the tokens they name |
| KeyValidation.NoRowHoldsAForeignVerifier | src/auth.rs:1259-1296 | No row ever accepts a token other than the one its key id names, even when rotation reuses its id |
| KeyValidation.RequestsChangeOnlyVerifiers | src/auth.rs:1259-1279 | A request changes no field but the verifier, and only of a usable row, to the SHA-256 kind |
| KeyValidation.AcceptanceIsJustified | src/auth.rs:1306-1387 | An accepted request saw, inside its own call and after its Argon2 check if it ran one, the row unrevoked, with no expiry or a later one, and accepting this token |
| KeyValidation.AcceptedOwnerIsActive | src/auth.rs:1389-1413 | Over every run the identity reported is the owner the row had when it was read, and if that is an account it was active when the request was decided, and so was the owner of a bot |
| KeyValidation.RefusalIsJustified | src/auth.rs:1306-1413 | Over every run each refusal has its reason in the state it was decided in: no usable row of the key id, a text that does not accept the token, an account missing or inactive, or a bad checksum |
| KeyValidation.GoodKeyIsAccepted | src/auth.rs:1306-1413 | From every state of every run a request for a good key, going on alone, is accepted for its row and owner; a legacy text is replaced by the SHA-256 one and nothing else changes |
| KeyValidation.NoRequestIsStuck | src/auth.rs:1306-1413 | A request always has a step of its own, and at any of them the database may fail instead |
| KeyValidation.RowsMayGo | src/auth.rs:412-426 | The runs include the revocation and the deletion of any rows at any moment |
| KeyValidation.OwnersMayChange | src/auth.rs:439-496 | They include giving the active rows of a name to anyone, and any change of accounts and clock |
| KeyValidation.KeysMayBeMade | src/auth.rs:189-235 | They include new keys under a free name, and rotation to the same owner or another |
| KeyValidation.EveryConcurrentValidationAccepts | src/auth.rs:1259-1387 | Undisturbed by revocation, rotation, reassignment or expiry, any number of concurrent validations of one token, its text legacy or migrated, all move on to acceptance unless the database fails, and a migrated row keeps the SHA-256 verifier of that token |
| KeyValidation.RowOnlyMigrates | src/auth.rs:1259-1279 | Whoever moves, while the row stays that of the token its owner changes only by an assignment and its verifier at most to that of its own token |
| KeyValidation.StaysOnTrack | src/auth.rs:1259-1387 | The invariant of those concurrent validations holds at every point of the run |
| KeyMinting.NoKeyOutlivesALockdown | src/auth.rs:189-235 | Over every sequence of transactions, a key minted from a session is active after a lockdown of its account only if that session began after the lockdown |
| KeyMinting.StaysContained | src/db/queries/users.rs:839-868 | After a lockdown every session of the account, and the session behind every live key minted for it, is newer than the lockdown, for good |
| KeyMinting.LockdownByOwnerOfTheKey | src/db/queries/users.rs:793-868 | Over every history, a key bound to a locked-down account is live only if its session is newer than the lockdown or is that of the human who owns the account as a bot; one mint right after the lockdown gets such a key exactly when some session of that human is recent enough |
| KeyMinting.KeyLivesUntilReached | src/db/queries/users.rs:839-868 | Over every history a live key stays exactly as it is until a transaction is aimed at its owner, its id or its name, and that one ends it unless it assigns it |
| KeyMinting.SessionLivesUntilEnded | src/db/queries/users.rs:839-868 | Over every history a session stays as it is until a transaction ends it, by its account or by name |
| KeyMinting.MintedKeysTraceToALogin | src/auth.rs:309-323 | Over every history each key minted from a session traces back to the login that opened it: same token, same account, at most fifteen minutes earlier, not expired and not ended in between; the mint stayed within the scope of that account and took a free name; the row is still the one minted, revoked or not |
| KeyMinting.MintsExactly | src/auth.rs:309-323 | In every history a mint succeeds exactly when the session is there, of the expected account, unexpired and at most fifteen minutes old, the account is active (for a bot its owner too), the key is for it or its bot, and the name is free to it |
| KeyMinting.BotLockdownSparesTheHumansSessions | src/db/queries/users.rs:793-798 | A concrete history of that exception: after the lockdown of a bot, an older session of its human mints the bot a live key |
| KeyMinting.AccountsMayChange | src/db/queries/users.rs:793-868 | The histories include accounts added and switched off or on, and bots deleted with their keys and sessions |
| KeyMinting.SessionsMayChange | src/auth.rs:309-323 | They include logins of any account, dropped sessions and revocation of any row |
| KeyMinting.OperatorMayAct | src/auth.rs:189-496 | They include the making, revoking and giving away of keys by the operator |
| BackupSchedule.PlanOf | src/backup.rs:53-64 | Whatever is configured, the interval is at least a minute and at least one archive is kept |
| BackupSchedule.NewestBackupAge | src/backup.rs:230-250 | The age of the newest artifact that can be read and is not dated in the future, in whatever order; none exactly when there is none, as in an unreadable directory |
| BackupSchedule.TimeUntilDue | src/backup.rs:218-223 | Zero exactly when every artifact that is read and visible is at least an interval old; otherwise the time until the newest is |
| BackupSchedule.SortedNames | src/backup.rs:514-533 | The same names, ascending |
| BackupSchedule.BackupDir.Rotate | src/backup.rs:514-545 | The deletion loop keeps exactly the names it does not find listed, those with fewer than `retain` later listed ones, and those whose removal fails |
| BackupSchedule.RotationKeepsTheLastNames | src/backup.rs:507-545 | What rotation keeps of what it lists is the last `retain` names of the sorted listing, and all it does not list |
| BackupSchedule.DueAgainAtOnce | src/backup.rs:225-250 | The limit of ageing by mtime and rotating by name: a backup is due again right after one was written exactly when at least `retain` artifacts have later names |
| BackupSchedule.RunKeepsInv | src/backup.rs:169-216 | In every run of any number of processes, with crashes, failures and looks at the directory that miss any part of it, the lock has one holder, writes follow one another, and what is under the name of the newest archive is no older |
| BackupSchedule.OneSharedSchedule | src/backup.rs:169-216 | In every run at most one process writes at a time and every write is over before the next begins; no write began less than an interval after an earlier archive exactly when before each the second check found the newest archive or that was an interval old anyway, and then that archive survives every rotation and failed write |
| BackupSchedule.NewestIsLostExactly | src/backup.rs:319-342 | In every run, spaced or not, the newest archive is gone exactly when a later write of the same second failed, removed that name, and no further write took it |
| BackupSchedule.UnreadDirectoryLosesTheNewest | src/backup.rs:230-250 | A concrete run: two attempts that cannot read the directory in one second; the second begins at once, fails, and removes the archive of the first |
| BackupSchedule.RecheckedIsDue | src/backup.rs:185-187 | What the second due check buys: under the lock, due at a clock reading after the last write means due after every write exactly when the check found the newest archive or that is old anyway |
| BackupSchedule.NextAttemptIsPrompt | src/backup.rs:124-141 | Whatever it reads, after an attempt that did not fail, and whose archive was not lost, the scheduler wakes no later than the later of due time and attempt start, plus the grace, plus the work; every sleep is at least the floor |
| BackupSchedule.EverySleepIsPrompt | src/backup.rs:124-141 | The same at every step of every run in which a process goes to sleep |
| BackupSchedule.SleepIsExact | src/backup.rs:124-141 | The length of every sleep of every run: after NotDue until the newest artifact read is an interval old, after a write or failure an interval, after Busy a minute, at least a second |
| BackupSchedule.SleepsThrough | src/backup.rs:117-141 | A sleeping scheduler does nothing of its own before that time, and then looks again |
| BackupSchedule.FirstCheckWaits | src/backup.rs:117-119 | A started scheduler leaves the first five seconds alone |
| BackupSchedule.DueBackupIsWritten | src/backup.rs:169-216 | From every state of every run with the lock free, a process that finds nothing younger than an interval can go on alone to write an archive and leave exactly those with fewer than `retain` later names |
| BackupSchedule.LookDecides | src/backup.rs:169-195 | Either look ends the attempt exactly when it finds an artifact younger than an interval at its clock, and otherwise goes on |
| BackupSchedule.RotationEnds | src/backup.rs:514-545 | In every run a rotation takes away exactly the listed files with at least `retain` later listed names whose removal did not fail, and tries each of those |
| BackupSchedule.AnyoneMayCrash | src/backup.rs:198-216 | The runs include the end of any process at any moment; its lock goes with it, the files stay |
| BackupSchedule.AnythingMayFail | src/backup.rs:169-195 | They include a lock file that does not open, a write failing before or after its rename with its file removed or not, and a removal that fails |
| BackupSchedule.AnyoneMayGoOn | src/backup.rs:117-141 | A scheduler may start at any time, and one whose time has come may look |
| BackupSchedule.SchedulerMaySleep | src/backup.rs:124-141 | After any attempt a scheduler may go to sleep, whatever part of the directory it reads |
| BackupSchedule.LatenessFromTheDueTime | src/backup.rs:34-41 | Counted from the due time alone the bound holds exactly when the attempt did not start too late, per outcome; after a write always while the newest archive is there |
| BackupSchedule.BusyAfterTheDueTime | src/backup.rs:34-37 | A concrete run in which the lock is found taken after the due time and the bound from the due time fails |
| ExportBudget.Budget.Add | src/export.rs:228-258 | Takes a file exactly when it fits beside the totals so far, and says which limit refused it |
| ExportBudget.NewBuilder | src/export.rs:267-275 | A builder exactly for a root within the limit |
| ExportBudget.Builder.constructor | src/export.rs:267-275 | An empty bundle whose budget holds the root |
| ExportBudget.Builder.Push | src/export.rs:277-282 | Takes a file exactly when the bundle with it is within every limit as a whole |
| ExportBudget.Builder.Finish | src/export.rs:284-289 | The bundle is within every limit |
| ExportBudget.ValidateBundle | src/export.rs:292-298 | Accepts exactly the bundles within every limit, so exactly what a builder could have finished |
| ExportBudget.BudgetOfPrefix | src/export.rs:292-298 | The first files of a bundle within its limits are within them |
| ExportJson.CostOfText | src/export.rs:42-45 | An encoded text takes at most six bytes per byte and one per byte that needs no escape |
| ExportJson.EncodedSize | src/export.rs:866-886 | The exact size of the encoded bundle |
| ExportJsonReader.ReadingUndoesEncoding | src/export.rs:866-886 | A reader by the grammar of JSON gets the bundle back from its encoding: root, paths and contents, each in its place |
| ExportJson.JsonFitsWhereZipDoes | src/export.rs:42-45 | A bundle within its budgets whose paths each hold five bytes needing no escape encodes within the JSON limit |
| ExportJson.FilesTheLimitAlwaysTakes | src/export.rs:42-45 | Whatever the paths: every bundle of that many files within the budgets fits the limit exactly when there are at most 2620 |
| ExportJson.NamelessFilesPassTheLimit | src/export.rs:42-45 | So some bundle within every budget passes the limit |
| ExportJson.LimitedWriter.Write | src/export.rs:902-910 | Refuses exactly what does not fit, and counts what the writer inside took |
| ExportJson.LimitedWriter.WriteAll | src/export.rs:902-910 | Over a reliable writer succeeds exactly when the bytes fit, across partial writes, and then all are written |
| ExportJson.WriteLimited | src/export.rs:866-915 | Whatever the pieces, succeeds exactly when the whole output fits, writes it whole, and never writes more than the limit |
| ExportJson.BundleToJson | src/export.rs:866-886 | Writes exactly the encoding of a bundle within budget, succeeds exactly when it fits, and at the standing limit never refuses a bundle with plain paths |
| PathText.ContainedPath | src/export.rs:805-824 | Accepts exactly the paths without root and `..` that name something, and returns their components |
| PathText.ComponentsAreOrdinary | src/export.rs:803-824 | Accepted components are entry names, at least one |
| PathText.RefusedExactly | src/export.rs:805-824 | A path is refused exactly when it is rooted, has a component `..`, or names nothing, each with its own error |
| PathText.ComponentsOfJoin | src/export.rs:803-824 | Any entry names joined by slashes are accepted and come back unchanged |
| ExportTree.Disk.PrepareOutputPath | src/export.rs:774-801 | The three checks and the creation of the parent, with their order and errors |
| ExportTree.AcceptedPathIsContained | src/export.rs:764-801 | For an anchored target an accepted path leads to the canonical target joined with its own components, or cannot be opened because its last name is too long; nothing but directories is added, and the canonical check never refuses what the component walk let through |
| ExportTree.ContainmentIsExact | src/export.rs:764-801 | Every accepted path is contained exactly when the target is anchored: it resolves already, or cannot be created, or leads to a directory with no link below it |
| ExportTree.PlainTargetIsAnchored | src/export.rs:777-791 | A target without `..` is anchored whether or not it exists |
| ExportTree.UpPastAMissingDirectory | src/export.rs:777-787 | The failing family: a target that goes up past a missing directory into one with a link is not anchored |
| ExportTree.UnseenMeansNoLinks | src/export.rs:777-787 | From a target that resolves, a walk that meets no link has passed every entry on the way |
| ExportTree.UnseenLink | src/export.rs:774-801 | Below a target that does not resolve, the name of a link is accepted and leads elsewhere |
| ExportWrite.WriteBundle | src/export.rs:661-673 | Refuses a bundle over budget with the tree unchanged; otherwise writes item by item until one fails |
| ExportWrite.WriteEntry | src/export.rs:738-759 | Prepares the place, reads at most what remains, writes; a refusal for bytes or a broken entry has its reason |
| ExportWrite.Unpack | src/export.rs:717-762 | However the call ends no more than the byte limit is written; each refusal has its reason; within the limits it is exactly the writing of the entries |
| ExportWrite.AfterEntry | src/export.rs:733-760 | At every point of the loop the bytes written are within the limit and the tree is that of the entries so far |
| ExportWrite.UnpackingIsWriting | src/export.rs:675-687 | A bundle within budget, archived and unpacked, gives the tree and paths of writing it directly when no path looks like a directory or the writing fails before it comes to one, and a different result when one does and the direct writing succeeds |
| ExportWrite.DirectoryNames | src/export.rs:733-737 | Skipped are exactly the names that end in a slash or backslash |
| ExportFresh.TrailingSlashIsLost | src/export.rs:733-737 | A concrete bundle: `a/` written directly is a file, and unpacking its archive makes none |
| ExportWrite.BothWays | src/export.rs:661-762 | The two ways side by side on equal trees end equal |
| ExportFresh.CreatesExactly | src/export.rs:789-792 | Below a target that exists, `create_dir_all` adds exactly the missing directories of the way |
| ExportFresh.WriteOneExactly | src/export.rs:661-673 | A new path on a clear way, no name too long, adds its missing directories and its file, nothing else |
| ExportFresh.FreshExport | src/export.rs:661-673 | Items with separate paths written into an empty directory all succeed exactly when no name in their paths passes 255 bytes, and then leave exactly one file each, with their own content |
| ExportFresh.NothingElseIsTouched | src/export.rs:661-673 | Whatever the items are named and however the export ends, outside the target directory nothing is added, changed or removed, and no directory and no link is ever replaced |
| ExportFresh.CreatesOnlyBelow | src/export.rs:789-792 | Creating a way below a target that exists makes nothing but directories of that way, also when it fails |
| ExportPaths.Slugify | src/export.rs:1073-1087 | The one-pass loop gives the words of the text, in lower case, joined by single dashes |
| ExportPaths.SlugTellsWords | src/export.rs:1073-1087 | Equal slugs come from equal words |
| ExportPaths.SlugSplits | src/export.rs:1073-1087 | A slug split at its dashes is the words again |
| ExportPaths.WordsAround | src/export.rs:1073-1087 | A character that is no letter or digit separates the words on its two sides |
| ProjectExport.FolderSegments | src/export.rs:1044-1067 | Halts on any parent map with the slugs of the folders passed, root first |
| ProjectExport.ChainVisitsOnce | src/export.rs:1047-1056 | The walk passes no folder twice, follows parents, and ends at a root, a missing folder or one already passed |
| ProjectExport.AcyclicFoldersGiveRootToLeaf | src/export.rs:1044-1067 | Without a cycle the segments are the recursive path from the root to the folder |
| ProjectExport.BuildPath | src/export.rs:1032-1042 | The path of an issue or page from its root, folders and slug |
| ProjectExport.ExportProject | src/export.rs:597-650 | All the files of the project when they are within budget, each with the path and the text of its own document, else an error |
| ProjectExport.ProjectsAreValid | src/db/queries/projects.rs:187-213 | The results hold for every identifier the server accepts and numbers that differ among issues and among pages |
| ProjectExport.PathHasTheseComponents | src/export.rs:1032-1042 | Every export path is accepted by the containment check with these components |
| ProjectExport.FileNamesDiffer | src/export.rs:1069-1087 | File names of issues, or of pages, with different sequence numbers differ whatever the titles |
| ProjectExport.PathsDoNotMeet | src/export.rs:630-648 | No path of a project export equals another or leads through another |
| ProjectExport.ExportIntoEmptyDirectory | src/export.rs:652-673 | A project exported into an empty directory succeeds exactly when each identifier with the slug of its title has at most 252 bytes and each folder slug at most 255, and then leaves exactly one file per issue and page, under its own path with the bytes of its own text |
| ProjectExport.OverlongTitle | src/export.rs:1069-1087 | A concrete project, one issue with a title of 300 letters: no export into an empty directory succeeds |
| ProjectExport.FileNameSize | src/export.rs:1069-1087 | The bytes of a file name, from the identifier and the slug of the title |
| ProjectExport.PathIsPlain | src/export.rs:411-415 | Every exported path holds at least five bytes that need no escape and does not look like a directory |
| ProjectExport.ExportsInEveryForm | src/export.rs:36-45 | A project export within budget fits the JSON limit, and unpacking its archive gives what writing it directly gives |
| Utf8Text.DecimalIsInjective | src/export.rs:1069-1071 | Different numbers are printed differently |
| Utf8Text.DecodingUndoesUtf8 | src/export.rs:661-673 | The bytes written for a text decode to the text |
| Checklists.Checklist | src/checklist.rs:28-60 | The one-pass scan counts exactly those task items that no fence covers, and says when there are none |
| Checklists.TallyCountsLines | src/checklist.rs:21-27 | The two numbers are the sizes of the set of counted lines and of the checked ones among them |
| Checklists.TasksAreThese | src/checklist.rs:69-94 | A line is a task item exactly when it is indentation, a bullet or number, spaces or tabs, `[ ]`, `[x]` or `[X]`, and then white space or nothing |
| Checklists.FencesAreThese | src/checklist.rs:36-67 | A line is a fence exactly when it is at most three bytes of indentation and three or more backticks or tildes; it closes an open one exactly with the same character, as long a run, and nothing else |
| Checklists.WhiteSpaces | src/checklist.rs:36-40 | White space is the 25 code points of the Unicode property White_Space |
| Checklists.CarriesOn | src/checklist.rs:35-53 | The fence the scan carries is the one open fence that covers the next line |
| Checklists.OneOpenFence | src/checklist.rs:36-48 | At most one open fence covers a line |
| Checklists.TaskIsNoMarker | src/checklist.rs:62-94 | A task item never looks like a fence |
| Checklists.ChecklistOfConcat | src/checklist.rs:28-60 | After a text that ends a line outside every fence, the counts of a second text add up |
| Checklists.CheckingABox | src/checklist.rs:69-94 | Checking one counted `[ ]` of a text makes its line a checked item, leaves every other line and what counts as it was, and raises done by one |
| Authz.VisibleIsViewable | src/authz.rs:398-417 | For every database and caller the bulk filter shows a project exactly when the point gate allows viewing it |
| Authz.NobodyAtTheGates | src/authz.rs:175-289 | Without a caller: nothing when enforced, and in legacy mode everything short of lead, structure and deletion |
| Authz.RoleGateAnswers | src/authz.rs:175-289 | For every caller, by the account that governs it: admins pass; enforced, the membership must reach the role; in legacy mode only lead is asked for, of a project that exists |
| Authz.DeleteGateAnswers | src/authz.rs:323-336 | Deleting asks, enforced, for a lead, and in legacy mode for the admin flag of the caller itself |
| Authz.FilterKeepsTheViewable | src/authz.rs:429-441 | The result is the subsequence of exactly the items the caller may see: all for the unrestricted, else those of a viewable project |
| Authz.AllowanceIsDownwardClosed | src/authz.rs:175-229 | Whoever is allowed a role is allowed every lower one, in both modes |
| Authz.EnforcedAllowsNoMore | src/authz.rs:175-263 | What the role gate allows with enforcement on it allows with it off |
| Authz.StructureGateOrder | src/authz.rs:279-289 | For the structure gate that fails exactly for a maintainer who is not the lead |
| Authz.DeleteGateOrder | src/authz.rs:323-336 | For the delete gate it fails exactly for a lead, or the bot of an admin, that is no admin itself |
| Authz.BotActsAsItsOwner | src/authz.rs:73-103 | A bot of a human gets exactly the outcome of its owner from the role, structure, workspace and visibility gates |
| Authz.BotAtTheDeleteGate | src/authz.rs:323-336 | The delete gate does so exactly when enforced or when the two carry the same admin flag |
| Authz.BotThatCannotDelete | src/authz.rs:323-336 | A concrete disagreement in legacy mode: the admin may delete, its bot without the flag may not |
| Authz.BotAboveItsHuman | src/authz.rs:28-30 | A concrete bot of a bot that passes the maintainer gate of a project its human cannot view |
| Authz.BotOfABot | src/authz.rs:28-30 | The promise that a bot never exceeds its human fails for a bot of a bot: it holds for all projects and roles exactly when the human is an admin, or the middle bot is none and stands nowhere above its human |
| Authz.CanViewIsTheGate | src/authz.rs:157-173 | The separate view check agrees with the gate for whoever is governed by themselves |
| Authz.CanViewForABot | src/authz.rs:157-173 | For a bot it agrees exactly when enforcement is off, or bot and owner are each admin or member, or neither is |
| Authz.BotThatCannotView | src/authz.rs:157-173 | A concrete disagreement: a bot that is no member, of an owner who is one |
| ArchiveNames.FreshFileName | src/archived_projects.rs:162-181 | The first candidate the directory does not have, within one try more than it has files; accepted when read back exactly when short enough |
| ArchiveNames.CandidatesDiffer | src/archived_projects.rs:173-179 | No two candidates are equal |
| ArchiveNames.ShortIdentifiersFit | src/archived_projects.rs:113-125 | For a project identifier the name is short enough in any directory of fewer than ten to the hundredth files |
| ArchiveNames.ValidNamesAreThese | src/archived_projects.rs:113-125 | Names read back are exactly a letter or digit, then letters, digits, dots, underscores and dashes, then the suffix, in at most 160 bytes |
| ArchiveNames.IdentifierStaysReadable | src/archived_projects.rs:162-171 | The identifier of a project stands unchanged at the start of the name |
| ArchiveRestore.Tables.CollectRestore | src/archived_projects.rs:202-254 | Lead, publication, every member, and one entry for every comment and attachment with an account and every history row made here, none of them imported, and for no other |
| ArchiveRestore.Tables.Import | src/project_archive.rs:2027-2048 | Every archived row under its fresh id with an imported attribution, and the admin as lead |
| ArchiveRestore.Tables.RestoreAuthors | src/archived_projects.rs:266-304 | The corrections of the entries, one after the other |
| ArchiveRestore.Tables.RestorePeople | src/archived_projects.rs:309-330 | Members whose accounts exist rejoin in their roles; the lead returns if its account exists, else there is none |
| ArchiveRestore.Tables.Unarchive | src/archived_projects.rs:466-491 | Import, authors, the grant to the admin, people, in that order |
| ArchiveRestore.CorrectedRow | src/archived_projects.rs:266-304 | Corrections of distinct rows do not disturb each other |
| ArchiveRestore.RoundTrip | src/archived_projects.rs:337-491 | Archive, then unarchive: lead and members are the originals whose accounts still exist, the only other member is the admin, the project is private, and every row is back under its new id, each field as the next rows say |
| ArchiveRestore.RowReturns | src/archived_projects.rs:202-304 | Field by field, for every kind of row: an unimported comment or attachment returns to its account or carries its name, unimported history to its actor and transport, and an earlier import keeps its attribution |
| ArchiveRestore.LocalAuthorship | src/archived_projects.rs:294-301 | An unimported comment or attachment returns to its account if that exists, and else carries the name it had |
| ArchiveRestore.LocalHistory | src/archived_projects.rs:275-293 | History returns with its actor, account or not, and its transport; only an audit row whose entity is gone keeps a source |
| ArchiveRestore.ImportedAttribution | src/archived_projects.rs:222-234 | A row that came from an earlier import keeps its attribution and source |
| ArchiveRestore.ActorAfterTwoRoundTrips | src/archived_projects.rs:278-286 | A limit: over two round trips history keeps its actor exactly when it is no audit row whose entity is gone |
| ArchiveRestore.ActorLostOnTheSecondTrip | src/archived_projects.rs:278-286 | A concrete audit row about a vanished entity: the first trip keeps its actor, the second loses it |
| ArchiveRestore.AuthorAfterTwoRoundTrips | src/archived_projects.rs:266-304 | A comment or attachment of an account that exists throughout keeps it over two round trips |

## Left out

- Hashes, Argon2, base64 library calls, gzip, tar and zip encodings, YAML and SQL text: parameters, uninterpreted functions or sequences of names and contents.
- `require_api_key`, headers, cookies, HTTP statuses, logging and route lists: single decisions over library types.
- Constant-time comparison and the quality of entropy.
- OAuth tokens, codes and device grants in a lockdown: they follow the same scope as the keys.
- `bot_is_connected` before a bot's key is minted: a further refusal, which only removes runs.
- Size preflights of an export by SQL (`src/export.rs:57-191`): they refuse earlier what the budget refuses.
- Markdown rendering of issues and pages: the rendered text is an input.
- Workspace pages and single-issue exports: the same path functions with one file.
- Pages without a sequence number: migration 002 gives every page one, and the model takes that as given.
- Other processes changing the output tree during an export: the tree changes only by the calls modelled.
- Permissions, full disks and names with a NUL byte: `mkdir` and `write` fail only for what the tree holds.
- The limit on the length of a whole path (`PATH_MAX`): only that of one name, 255 bytes as on Linux, is modelled.
- Windows path prefixes: paths are read as on Unix.
- An empty target path, which the operating system refuses to canonicalize.
- The duplicate-name check of the zip writer: an archive is a sequence of entries.
- Two databases with artifacts in one backup directory: one database's artifacts are modelled, so the prefix filter is the identity.
- Reading a backup directory takes one step and may miss any part of it, but never finds a file that has just gone.
- Clocks that go back during a run: the clock of a run is monotone; artifacts dated in the future are modelled.
- Audit pruning, heap trimming, the staging sweep and the shutdown checkpoint of `src/backup.rs`.
- Assignments, waits, labels, plans and blobs in a project archive: rows without a local account, carried by the importer.
- Rows of `audit_log` outside the archive's scope: they are neither archived nor collected.
- Years past 9999 in a file name's time stamp.
- SystemTime precision: times are whole milliseconds and stamps whole seconds.
- GFM details the scan does not follow either, such as list items nested in block quotes.
