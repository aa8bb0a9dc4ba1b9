# Oryxis, verified model

Oryxis is a desktop SSH client. This project models the parts of it that carry state a
user relies on but never sees: the emulator that turns a recorded session into readable
text and back, the rounds by which devices keep one vault in step through a Git remote or
a shared folder, the machine that decides what counts as a command, the background search
over recordings, the pairing relay and its registry, the bytes a history pick types, the
saving of AI conversations and of imported hosts, and a few smaller conversions. Each
component is a Dafny module. Where the source updates state in place, the module pair is a
specification (values, functions, lemmas over whole runs) and a class or method with the
source's own loops, proved to compute that specification.

| component | specification | as the source runs it |
|---|---|---|
| transcripts | `Transcript`, `TranscriptSpans`, `TranscriptWrite`, `TranscriptErase`, `TranscriptControls`, `TranscriptRoundTrip` | `TranscriptRender`, `TranscriptSerialize` |
| vault merge | `Records` | `Records.ApplyRecords` |
| repeated rounds | `SyncRounds`, `SyncDeletions`, `SyncSchedules`, `SyncQuiet` | |
| Git transport | `GitDevice`, `GitSync`, `GitRounds`, `GitPublished`, `GitRetries`, `GitSettles` | `GitWorker` |
| folder transport | `FolderSync`, `FolderHeals` | `FolderWorker` |
| command capture | `CommandText`, `CommandCapture`, `CaptureMemory` | `CapturePane` |
| recording search | `ScanPump`, `ScanCoverage` | `HistorySearch` |
| relay and registry | `RelayQueue`, `Decimals`, `DeviceRegistry` | `PollSchedule.LongPoll`, `DeviceRegistry.Registry` |
| line mirror and history pick | `LineMirror`, `LineEditor`, `Completion`, `Utf8` | `InputTracker` |
| AI conversations | `ChatHistory` | `ChatTab` |
| host import | `DirectImport` | `ImportWorker` |
| replay clock, startup command, colours | `CastTiming`, `LocalStartup`, `ColorPicker` | `CastTiming.Intervals`, `LocalStartup.Parked` |

## Where the code and its documentation part

The model follows the code. These statements of the source hold only in part; each has an
exact condition or a family of counterexamples proved.

- **The merge is not last-writer-wins.** Applying a remote deletion goes through the local
  delete, which stamps a fresh tombstone with the local clock. So two sweeps of rounds reach
  the join of all vaults, under every schedule, exactly when no unapplied deletion is left
  anywhere (`SyncDeletions.ConvergesExactlyWhenSafe`), and rounds stop committing exactly
  then or for a device on its own (`SyncQuiet.QuietExactly`), although the signature file
  exists to keep empty commits out of the history (dispatch_git_sync.rs:41-49); an edit
  survives a relayed deletion exactly when the relay's clock is not past it
  (`SyncDeletions.RelayedDeletionExactly`); and a clock that lags publishes a snapshot below
  the one it was built on (`GitRounds.LaggingClockLowersTheBranch`). No-lost-update is
  therefore proved for clocks not behind a deletion they apply.
- **The fingerprint rounds to milliseconds** while the merge compares nanoseconds: two edits
  of a record in one millisecond look unchanged (`Records.SubMillisecondEditsLookAlike`).
- **Rounds settle by order, not by number.** From safe systems a schedule of uncontended
  rounds settles everything exactly when every device runs and every other device runs again
  after that one's first round (`GitSettles.SystemSettlesExactly`, on abstract rounds
  `SyncSchedules.SettlesExactly`); two rounds of each device back to back do not.
- **An Ok that published nothing**: a device that tracks no branch gets Ok whenever the files
  in its clone are its vault's, also when its push was refused, its commit failed, or in any
  round after. Its vault, as it committed it, is then on the branch exactly when a push of it
  was taken at some time (`GitPublished.UntrackedOkExactly`; for one push and its retry
  `GitRounds.UntrackedOkIsPublishedExactly`, `FirstOkIsPublishedExactly`). On a tracking clone
  an unchanged round has nothing unpublished (`GitSync.UnchangedMeansPublished`).
- **"No command is recorded twice"** fails exactly for a command captured from the user's
  side - read off the grid or guessed from its echo - and then reported and started, with no
  prompt or other start in between (`CommandCapture.RecordedTwiceExactly`): at most one
  between two reconnects (`RecordedTwiceOncePerConnection`), for instance the first one a
  pane's shell reports (`FirstReportRecordsTwice`).
- **A deleted recording's excerpt can outlive it** (against dispatch_history.rs:520-522).
  Deleted by hand, it can come back exactly when its scan was in flight at the deletion
  (`ScanPump.DeletedExcerptReturnsExactlyIfInFlight`). Pruned by size or age, which does not
  tell the search, it can show exactly when it was held or in flight
  (`PrunedExcerptShowsExactly`).
- **A pick does not always land**: `Completion.PickLandsExactly` gives the condition over every
  line the mirror vouches for. Without bracketed paste a tab or newline in what is left to
  type breaks it; and the mirror also vouches for a line on which an escape sequence has been
  begun, which eats the start of the pick unless it is a lone ESC before a bracketed paste.
- **A paste is not always taken verbatim**: the mirror reads an ESC in a pasted text as the
  start of a sequence, so a pasted text is on the line as it is, and vouched for, exactly when
  it holds none (`LineEditor.PasteExactly`); a pasted `ESC O C` goes unnoticed, and the line is
  vouched for without it (`PastedArrowGoesUnnoticed`).
- **Relay frames follow their timestamps** exactly when none is posted stamped below one
  already listed (`RelayQueue.RelayOrderExactly`); the stamp is read before the put, so
  concurrent posts can be.
- **"A half-streamed answer is never what gets saved"**: opening a saved conversation flushes
  the live one at any moment, so the half of an answer stays saved and the rest counts as
  stored (`ChatHistory.OpeningCatchesUp`, `HalfAnswerIsKept`). `ChatHistory.StepExact` lists
  every event that breaks the cursor.
- **"A failure here leaves nothing half made"**: the outcome of opening the import batch is
  ignored; if it failed, folders and hosts already written stay
  (`DirectImport.FolderFailureUndone`, `CommitFailureUndone`).
- **Thirteen digits of padding** sort as numbers only below 10^13
  (`Decimals.PaddingSortsExactlyBelow`). The worker's header says "about 25" list calls per
  window and its constants' comment "~26"; it is 26 at 110 s.

## Model

| member | source | states |
|---|---|---|
| `Transcript.StepKeepsValid` | crates/oryxis-app/src/ansi_render.rs:145-272 | every character leaves the cursor on an existing row and no control character in any cell |
| `Transcript.FeedConcat` | crates/oryxis-app/src/ansi_render.rs:145-272 | reading a recording in two pieces, cut anywhere, inside a sequence too, is reading it whole |
| `Transcript.RowsOf` | crates/oryxis-app/src/ansi_render.rs:135-277 | the rows a recording leaves hold no control characters, whatever the recording |
| `TranscriptRender.Render` | crates/oryxis-app/src/ansi_render.rs:135-308 | for every input the nested peeking loops stop and yield the spans of the flat machine's rows |
| `TranscriptRender.ApplySgr` | crates/oryxis-app/src/ansi_render.rs:69-127 | the code-by-code loop is the recursive reading of a parameter list, extended colours consuming theirs |
| `TranscriptRender.ReadCsi` | crates/oryxis-app/src/ansi_render.rs:150-172 | collecting parameters up to a final character leaves the rest of the input to be read as the machine reads it; a broken-off sequence too |
| `TranscriptRender.ApplyCsi` | crates/oryxis-app/src/ansi_render.rs:173-213 | the branch for each final character does what the machine does on it |
| `TranscriptRender.SkipOsc` | crates/oryxis-app/src/ansi_render.rs:214-224 | an OSC string is skipped to BEL or ESC backslash and changes nothing |
| `TranscriptRender.WriteCell` | crates/oryxis-app/src/ansi_render.rs:259-270 | padding blank by blank and then writing is writing at the column |
| `TranscriptWrite.TextOverwrites` | crates/oryxis-app/src/ansi_render.rs:259-271 | printable text lands at the cursor over what was there, in the pen's colour, gap padded with blanks; every other row and the pen stay |
| `TranscriptWrite.RedrawReplacesLine` | crates/oryxis-app/src/ansi_render.rs:255-271 | carriage return and a redraw: the new text shows, the old line only where it was longer |
| `TranscriptWrite.BoldAndBaseCommute` | crates/oryxis-app/src/ansi_render.rs:72-90 | bold brightens a base colour in either order |
| `TranscriptWrite.BackgroundIsIgnored` | crates/oryxis-app/src/ansi_render.rs:114-122 | a background colour takes its arguments with it and changes nothing, whatever follows |
| `TranscriptWrite.FixedColorsAreDistinct` | crates/oryxis-app/src/ansi_render.rs:37-52 | past the theme's sixteen no two colour indices give one colour |
| `TranscriptControls.EraseKeepsWhatIsBefore` | crates/oryxis-app/src/ansi_render.rs:183-185 | ESC[K leaves exactly the cells before the cursor, as they were, and every other row |
| `TranscriptControls.RedrawAndErase` | crates/oryxis-app/src/ansi_render.rs:183-271 | carriage return, any printable text and ESC[K leave on the row exactly that text in the pen's colour, whatever was there, and every other row as it was |
| `TranscriptControls.EraseWholeLine` | crates/oryxis-app/src/ansi_render.rs:186-189 | ESC[2K empties the row and takes the cursor to its start; other rows stay |
| `TranscriptControls.EraseDownCuts` | crates/oryxis-app/src/ansi_render.rs:201-210 | ESC[J keeps the rows above and the cells before the cursor, and nothing else |
| `TranscriptControls.Motions` | crates/oryxis-app/src/ansi_render.rs:177-200 | each motion moves by its number, at least one, clamped to the written rows and the first column, and changes no cell |
| `TranscriptControls.BareMotions` | crates/oryxis-app/src/ansi_render.rs:177-200 | a motion without a number is the motion by one |
| `TranscriptControls.Controls` | crates/oryxis-app/src/ansi_render.rs:255-258 | a tab lands on the next multiple of eight; backspace and carriage return only move; every other control leaves no trace |
| `TranscriptControls.LineFeeds` | crates/oryxis-app/src/ansi_render.rs:248-254 | a line feed goes to the start of the next row, made empty if there is none |
| `TranscriptControls.SavedCursorReturns` | crates/oryxis-app/src/ansi_render.rs:230-242 | save and restore bring back the column, and the row as far as it still exists |
| `TranscriptControls.OthersAreIgnored` | crates/oryxis-app/src/ansi_render.rs:182-213 | every other sequence, clearing the screen included, changes nothing |
| `TranscriptControls.OscIsSilent` | crates/oryxis-app/src/ansi_render.rs:214-224 | a title or directory, ended either way, leaves no trace and eats nothing after it |
| `TranscriptControls.ShortEscapesAreSilent` | crates/oryxis-app/src/ansi_render.rs:225-246 | a charset designation takes two characters and any other escape one, without effect |
| `TranscriptControls.PrivateModesAreSilent` | crates/oryxis-app/src/ansi_render.rs:152-172 | a private mode is read to its end and ignored |
| `TranscriptControls.BaseColours` | crates/oryxis-app/src/ansi_render.rs:69-97 | 30-37 take the theme's colour, bright under bold, 90-97 the bright one; bold given and taken back changes exactly the base ones |
| `TranscriptControls.OtherColours` | crates/oryxis-app/src/ansi_render.rs:69-113 | a default, indexed or direct colour forgets the base one, so bold no longer changes it; numbers are read modulo 256; 0 forgets all; an unknown code changes nothing |
| `TranscriptControls.CodeByCode` | crates/oryxis-app/src/ansi_render.rs:66-127 | a parameter list is read code by code, each with its own arguments and no more |
| `TranscriptControls.BrokenColours` | crates/oryxis-app/src/ansi_render.rs:99-122 | a colour whose arguments are missing takes none, a background loses what is there |
| `TranscriptControls.ColoursReachThePen` | crates/oryxis-app/src/ansi_render.rs:177-181 | a colour sequence changes the pen and nothing on the grid |
| `TranscriptControls.ColourTable` | crates/oryxis-app/src/ansi_render.rs:37-52 | each channel of the cube is one of 0, 95, 135, 175, 215, 255, each grey 8 + 10k, the first sixteen the theme's |
| `TranscriptErase.RowsAboveAreSafe` | crates/oryxis-app/src/ansi_render.rs:145-272 | rows strictly above the lowest row the cursor visits are never changed, for every input |
| `TranscriptErase.CalmNeverClimbs` | crates/oryxis-app/src/ansi_render.rs:193-194 | text that completes no cursor-up, save or restore never rises above its first row and keeps the saved cursor |
| `TranscriptErase.SelfErasingBlockVanishes` | crates/oryxis-app/src/ansi_render.rs:11-18 | save, any such text, restore, up one, erase down leaves the rows above, one empty row, and nothing else |
| `TranscriptErase.ErasedTextIsForgotten` | crates/oryxis-app/src/ansi_render.rs:11-18 | the same rows are left whatever the block printed |
| `TranscriptSpans.FlattenRle` | crates/oryxis-app/src/ansi_render.rs:279-307 | cutting rows into spans loses no character and no colour |
| `TranscriptSpans.CanonicalIsUnique` | crates/oryxis-app/src/ansi_render.rs:282-293 | a coloured text has only one cutting with no empty span and no equal neighbours |
| `TranscriptSpans.UniformRowIsOneSpan` | crates/oryxis-app/src/ansi_render.rs:282-306 | a row in one colour is one span, its newline included |
| `TranscriptSpans.Push` | crates/oryxis-app/src/ansi_render.rs:282-293 | a run is merged into a last span of its colour, an empty one dropped |
| `TranscriptSpans.CompressRow` | crates/oryxis-app/src/ansi_render.rs:295-306 | one row's run loop adds exactly that row, newline in its end colour |
| `TranscriptSpans.Compress` | crates/oryxis-app/src/ansi_render.rs:279-307 | the row loop yields the one canonical cutting of all rows |
| `TranscriptSerialize.ToAnsi` | crates/oryxis-app/src/ansi_render.rs:321-352 | the two loops print a colour change where the colour changes, CR LF per newline, a reset at the end |
| `TranscriptSerialize.SpansTextIsCellsText` | crates/oryxis-app/src/ansi_render.rs:321-352 | how a text was cut into spans does not show in the bytes |
| `TranscriptSerialize.NewlinesReturn` | crates/oryxis-app/src/ansi_render.rs:321-352 | every newline goes out as carriage return and line feed |
| `TranscriptRoundTrip.ParseDecimal` | crates/oryxis-app/src/ansi_render.rs:327-332 | the decimal a colour component prints is read back as that component |
| `TranscriptRoundTrip.RowsRoundTrip` | crates/oryxis-app/src/ansi_render.rs:135-352 | for every grid of printable cells, rendering the serialized spans gives back the same rows, text and colours |
| `TranscriptRoundTrip.RenderRoundTrip` | crates/oryxis-app/src/ansi_render.rs:310-352 | render after serialize after render is render, for every recording |
| `TranscriptRoundTrip.SerializedTextResets` | crates/oryxis-app/src/ansi_render.rs:345-352 | whatever was serialized, the pen is back to default after it |
| `TranscriptRoundTrip.SerializedTextIsThemeFree` | crates/oryxis-app/src/ansi_render.rs:321-332 | serialized text reads the same under every theme |
| `TranscriptRoundTrip.SerializeIsInjective` | crates/oryxis-app/src/ansi_render.rs:321-352 | different grids serialize differently |
| `Records.ApplyRecords` | crates/oryxis-sync/src/engine/manifest.rs:484-569 | the record loop computes the merge: a strictly newer record wins, a winning deletion is stamped with local time |
| `Records.JoinIsUpperBound` | crates/oryxis-app/src/dispatch_folder_sync.rs:1-12 | the documented merge holds everything both sides hold |
| `Records.JoinIsLeast` | crates/oryxis-sync/src/conflict.rs:17-23 | and nothing more: it is below every vault above both |
| `Records.JoinCommutes` | crates/oryxis-sync/src/conflict.rs:17-23 | merge order of two vaults does not matter, when equal stamps mean equal content |
| `Records.JoinAssociates` | crates/oryxis-sync/src/conflict.rs:17-23 | nor does grouping, unconditionally |
| `Records.MergeIsJoin` | crates/oryxis-vault/src/store/sync.rs:138-151 | the merge that runs is the documented one if and only if every deletion it applies bears the local time |
| `Records.MergeDominates` | crates/oryxis-sync/src/engine/manifest.rs:540-569 | the merged vault is at or above the snapshot if and only if the clock is not behind a deletion applied |
| `Records.EqualSignaturesEqualVaults` | crates/oryxis-sync/src/engine/snapshot.rs:157-178 | vaults are equal if and only if their fingerprints are and no record has two entries in one millisecond |
| `Records.SignaturesAgreeExactly` | crates/oryxis-sync/src/engine/snapshot.rs:157-172 | fingerprints agree if and only if the ids do and each record agrees to the millisecond and on being deleted |
| `Records.SubMillisecondEditsLookAlike` | crates/oryxis-sync/src/engine/snapshot.rs:157-178 | without that they do not: a newer edit in the same millisecond shares the fingerprint |
| `SyncRounds.JoinToIsLeast` | crates/oryxis-sync/src/conflict.rs:17-23 | the join of all vaults is the least vault above all of them |
| `SyncRounds.SafeConverges` | crates/oryxis-app/src/dispatch_git_sync.rs:338-435 | from a world with no unapplied deletion, two sweeps of rounds in any order bring every vault and the remote to the join of all |
| `GitSettles.ScheduleRuns` | crates/oryxis-app/src/dispatch_git_sync.rs:338-435 | command by command, a schedule of uncontended rounds is its abstract rounds and ends at rest |
| `GitSettles.SystemSettlesExactly` | crates/oryxis-app/src/dispatch_git_sync.rs:338-435 | run as commands, a schedule settles every safe resting system of n devices if and only if every device runs and every other one runs again after its first round |
| `GitSettles.SettledAddsNothing` | crates/oryxis-app/src/dispatch_git_sync.rs:384-396 | once settled no later round, as commands, changes a vault or adds a commit |
| `SyncRounds.SettledIsQuiet` | crates/oryxis-app/src/dispatch_git_sync.rs:41-49 | from then on no round changes anything or commits |
| `SyncDeletions.ConvergesExactlyWhenSafe` | crates/oryxis-sync/src/engine/manifest.rs:540-569 | rounds converge under every schedule of two sweeps if and only if no deletion is left to apply |
| `SyncQuiet.QuietExactly` | crates/oryxis-app/src/dispatch_git_sync.rs:384-396 | however two sweeps are scheduled on ticking clocks they end where no round commits any more, if and only if no deletion is left to apply or the device is on its own |
| `SyncQuiet.CaughtRound` | crates/oryxis-sync/src/engine/manifest.rs:540-569 | a published deletion newer than all but its last runner: any other device's round commits and publishes it again |
| `SyncDeletions.DeletionNeverSettles` | crates/oryxis-app/src/dispatch_git_sync.rs:384-396 | in such a world every round of alternating devices commits, with no edit anywhere, for as many rounds as there are |
| `SyncSchedules.SettlesExactly` | crates/oryxis-app/src/dispatch_git_sync.rs:338-435 | a schedule of rounds settles every safe world of n devices, on any clocks, if and only if every device runs and every other one runs again after its first round |
| `SyncSchedules.HearingSettles` | crates/oryxis-app/src/dispatch_git_sync.rs:338-435 | such a schedule brings every vault and the remote to the join of all |
| `SyncDeletions.RunningBeforeIsNeverHearing` | crates/oryxis-app/src/dispatch_git_sync.rs:338-435 | a device whose rounds all precede another's ends without that one's records, though the join has them |
| `SyncDeletions.RelayedDeletionExactly` | crates/oryxis-sync/src/engine/manifest.rs:540-569 | relayed first, a deletion leaves an edit standing if and only if, as then published, it is not later than the edit; the editor's own clock does not matter |
| `SyncDeletions.RelayedDeletionBuriesNewerEdit` | crates/oryxis-sync/src/engine/manifest.rs:540-569 | so a relay with a later clock overrides an edit the documented merge would keep |
| `SyncDeletions.NewerEditFirstSurvives` | crates/oryxis-sync/src/engine/manifest.rs:521-538 | had the editor synced first, the edit would win |
| `GitSync.ClonesAreOk` | crates/oryxis-app/src/dispatch_git_sync.rs:287-310 | clones just made of a climbing branch satisfy what every run keeps |
| `GitSync.HistoryIsNeverRewritten` | crates/oryxis-app/src/dispatch_git_sync.rs:420-432 | whatever fails or races, the branch is only ever extended |
| `GitSync.NoLostUpdate` | crates/oryxis-app/src/dispatch_git_sync.rs:338-435 | in any interleaving, with stale or failed fetches, refusals and lost answers, each published snapshot is at or above every earlier one |
| `GitSync.NoVaultGoesBack` | crates/oryxis-app/src/dispatch_git_sync.rs:378-383 | no vault ever drops a record or returns to an older version of one |
| `GitSync.UnchangedMeansPublished` | crates/oryxis-app/src/dispatch_git_sync.rs:384-396 | a round ended by equal signatures on a tracking clone has nothing unpublished, to the millisecond |
| `GitDevice.ActKeeps` | crates/oryxis-app/src/dispatch_git_sync.rs:338-435 | every single command keeps the device and the branch consistent |
| `GitDevice.RecloneForgets` | crates/oryxis-app/src/dispatch_git_sync.rs:287-311 | a rebuilt clone is the remote's and keeps nothing of the one before |
| `GitRounds.CommandsMakeTheRound` | crates/oryxis-app/src/dispatch_git_sync.rs:338-435 | the round's commands, uncontended, are the abstract round, and commit exactly when it does |
| `GitRounds.UntrackedOkIsPublishedExactly` | crates/oryxis-app/src/dispatch_git_sync.rs:364-432 | any device pushing without a tracked branch ends Ok after the retry, whatever the answer and the fetch, and its commit is on the remote if and only if the push was not refused |
| `GitRounds.FirstOkIsPublishedExactly` | crates/oryxis-app/src/dispatch_git_sync.rs:364-432 | the first sync to an empty remote reports Ok in every such case, with exactly this vault published or nothing at all |
| `GitPublished.OnTheBranchExactlyIfPushed` | crates/oryxis-app/src/dispatch_git_sync.rs:420-432 | over every run of fresh clones of an empty remote, a device's commit with a signature is on the branch if and only if it pushed it and the push was taken |
| `GitPublished.UntrackedOkExactly` | crates/oryxis-app/src/dispatch_git_sync.rs:364-396 | every Ok a device gets on equal signatures without a tracked branch sends nothing, and its vault as it committed it is on the branch if and only if a push of it was taken before |
| `GitPublished.StrandedRoundsSayOk` | crates/oryxis-app/src/dispatch_git_sync.rs:364-396 | any later round of a device whose files are its vault's says Ok and leaves the remote as it was |
| `GitPublished.FailedCommitThenOk` | crates/oryxis-app/src/dispatch_git_sync.rs:403-419 | after a commit that failed the next round says Ok with no commit anywhere |
| `GitRounds.RoundClimbsExactly` | crates/oryxis-app/src/dispatch_git_sync.rs:338-435 | an uncontended round publishes at or above the last snapshot if and only if the clock is not behind a deletion it applies, or nothing is published |
| `GitRounds.LaggingClockLowersTheBranch` | crates/oryxis-vault/src/store/sync.rs:138-151 | a lagging clock publishes a snapshot not above the one it was built on |
| `GitWorker.RecordedIsRun` | crates/oryxis-app/src/dispatch_git_sync.rs:338-435 | what the worker records of itself is a run of the interleaved system |
| `GitWorker.Worker.FetchOrigin` | crates/oryxis-app/src/dispatch_git_sync.rs:364-370 | the fetch moves the tracking ref or, failing, is ignored |
| `GitWorker.Worker.ResetHard` | crates/oryxis-app/src/dispatch_git_sync.rs:371-377 | files and branch become the tracked tip's when there is one |
| `GitWorker.Worker.MergeSnapshot` | crates/oryxis-app/src/dispatch_git_sync.rs:378-383 | the vault becomes its merge with the file, or the round fails |
| `GitWorker.Worker.SignaturesMatch` | crates/oryxis-app/src/dispatch_git_sync.rs:384-396 | the short-circuit is taken exactly when the file's signature is the vault's |
| `GitWorker.Worker.WriteFiles` | crates/oryxis-app/src/dispatch_git_sync.rs:398-401 | snapshot and signature files become the vault's, or the round fails half-way |
| `GitWorker.Worker.CommitFiles` | crates/oryxis-app/src/dispatch_git_sync.rs:403-419 | the commit holds what the files hold |
| `GitWorker.Worker.PushHead` | crates/oryxis-app/src/dispatch_git_sync.rs:420-432 | a push is taken only as a fast-forward; refused, the next attempt starts, at most three |
| `GitWorker.Worker.GitRound` | crates/oryxis-app/src/dispatch_git_sync.rs:338-435 | at most three pushes, exactly three when it fails with no failed command; on Pushed the branch tip is this vault under its own signature; on Unchanged the file's signature is this vault's |
| `GitRetries.LostPushesAreAttempts` | crates/oryxis-app/src/dispatch_git_sync.rs:364-432 | over every run a round under way is at the attempt its lost pushes say, and has lost at most two |
| `GitRetries.RoundEndsExactly` | crates/oryxis-app/src/dispatch_git_sync.rs:338-435 | over every run an event ends a round if and only if a command failed, the signatures matched, a push was heard taken, or a third push was lost - and as that says; a first or second lost push goes back to the fetch |
| `FolderSync.RestIsOk` | crates/oryxis-app/src/dispatch_folder_sync.rs:104-124 | devices at rest under different tags satisfy what every run keeps |
| `FolderSync.FolderStaysWhole` | crates/oryxis-app/src/dispatch_folder_sync.rs:146-207 | with distinct tags, at every step of any interleaving the target is absent or whole, and whoever installed a snapshot still holds all of it |
| `FolderSync.NoVaultGoesBack` | crates/oryxis-app/src/dispatch_folder_sync.rs:150-207 | whatever is overwritten in the folder, no vault ever drops a record or returns to an older version of one |
| `FolderSync.WholeExactlyWithDistinctTags` | crates/oryxis-app/src/dispatch_folder_sync.rs:104-124 | from rest the target stays whole over every run, whatever the clocks, if and only if no two devices share a tag |
| `FolderSync.SharedTagTears` | crates/oryxis-app/src/dispatch_folder_sync.rs:104-124 | with one tag on two devices the target can end up half a snapshot |
| `FolderSync.EventsMakeTheRound` | crates/oryxis-app/src/dispatch_folder_sync.rs:150-207 | an uninterrupted round, step by step, is the abstract round |
| `FolderHeals.ScheduleRuns` | crates/oryxis-app/src/dispatch_folder_sync.rs:150-207 | event by event, a schedule of uninterrupted rounds is its abstract rounds and ends at rest |
| `FolderHeals.OverwritesHeal` | crates/oryxis-app/src/dispatch_folder_sync.rs:150-207 | however rounds overwrote each other, once over, a run of uninterrupted rounds in which every device hears every other reaches the join, which holds everything ever installed |
| `FolderWorker.Worker.FolderRound` | crates/oryxis-app/src/dispatch_folder_sync.rs:150-207 | the round is a recorded run of the interleaved system; the target is the old file or, on success, this vault whole; nobody else's temp file is touched; its own is gone after the rename |
| `FolderWorker.Worker.Pull` | crates/oryxis-app/src/dispatch_folder_sync.rs:178-186 | the vault on top of the target if there is one that decodes, else the round is over |
| `FolderWorker.Worker.Publish` | crates/oryxis-app/src/dispatch_folder_sync.rs:188-207 | the vault goes whole into this device's temp file and from there into place, or the target stays |
| `CommandText.Sanitize` | crates/oryxis-app/src/command_capture.rs:208-220 | what passes the gate is trimmed, bounded and free of control characters |
| `CommandText.StorableIsKept` | crates/oryxis-app/src/command_capture.rs:208-220 | a text passes the gate unchanged if and only if it is storable |
| `CommandText.TrimIsTheCore` | crates/oryxis-app/src/command_capture.rs:212-212 | trimming leaves exactly what is between the blanks at both ends |
| `CommandText.SanitizeExactly` | crates/oryxis-app/src/command_capture.rs:208-220 | a text is kept as its trim if and only if it does not start with a space and the trim is not empty, at most 4096 bytes and without control characters but tab and newline |
| `CommandText.StripPrompt` | crates/oryxis-app/src/command_capture.rs:232-245 | the earliest prompt terminator is found if there is one, and what follows it returned |
| `CommandText.PromptsAreRead` | crates/oryxis-app/src/command_capture.rs:233-237 | the classic prompts end where they should, the first of two counting |
| `CommandText.PowerShellPromptIsRead` | crates/oryxis-app/src/command_capture.rs:238-242 | a > ends a prompt on a PowerShell line and on no other |
| `CommandCapture.RunOk` | crates/oryxis-app/src/command_capture.rs:143-202 | a deferred capture exists only while busy and on a pane that never reported; a held report only on one that did |
| `CommandCapture.OneTypedCapturePerPrompt` | crates/oryxis-app/src/command_capture.rs:47-137 | over any run each prompt mark licenses at most one typed capture, immediate or deferred, and none comes without one |
| `CommandCapture.SeenStaysAndSilences` | crates/oryxis-app/src/command_capture.rs:52-58 | after a reported line, until a reconnect, no input is captured or changes anything |
| `CommandCapture.InputToARunningCommandIsNeverCaptured` | crates/oryxis-app/src/command_capture.rs:100-100 | from a command's start to the next prompt nothing typed is captured |
| `CommandCapture.GuessingEndsWithTheFirstMark` | crates/oryxis-app/src/command_capture.rs:101-133 | the echo heuristic is over for good with the first prompt, output or command-end mark |
| `CommandCapture.GuessedExactly` | crates/oryxis-app/src/command_capture.rs:101-133 | over every run a command is guessed if and only if the pane still guesses and the write's first line is on the cursor's line after its earliest prompt, off the alternate screen, as typed or not vouched for, and passes the gate |
| `CommandCapture.GuessedIsOnScreen` | crates/oryxis-app/src/command_capture.rs:118-132 | every guessed capture is the trimmed text the cursor's line shows after its earliest prompt: nothing unechoed is recorded |
| `CommandCapture.ImmediateExactly` | crates/oryxis-app/src/command_capture.rs:72-89 | a command is captured as Enter is pressed if and only if the write comes at a prompt, off the alternate screen, and what the grid shows there passes the gate as it |
| `CommandCapture.PutOffExactly` | crates/oryxis-app/src/command_capture.rs:90-98 | the capture is put off if and only if nothing shows there yet and something was submitted |
| `CommandCapture.DeferredExactly` | crates/oryxis-app/src/command_capture.rs:177-193 | and then made if and only if the command starts, from what the grid then shows |
| `CaptureMemory.SeenExactly` | crates/oryxis-app/src/command_capture.rs:166-175 | over every run the shell counts as reporting if and only if it has reported a line since the last reconnect |
| `CaptureMemory.PromptExactly` | crates/oryxis-app/src/command_capture.rs:143-202 | the pane is at a prompt if and only if one was drawn there and since then no mark but a reported line, and no submitted line, has come |
| `CaptureMemory.GuessesExactly` | crates/oryxis-app/src/command_capture.rs:101-133 | it guesses if and only if no mark but reported lines has ever come |
| `CaptureMemory.PendingExactly` | crates/oryxis-app/src/command_capture.rs:90-98 | a capture waits if and only if one was put off there and no mark but a command's end has come since |
| `CommandCapture.ReportedExactly` | crates/oryxis-app/src/command_capture.rs:166-194 | a reported command is captured if and only if an OutputStart directly follows its CommandLine and it passes the gate; the capture is its text |
| `CommandCapture.TypedIsReadAtTheLatestPrompt` | crates/oryxis-app/src/command_capture.rs:84-98 | every typed capture is what the grid shows at the latest prompt's end |
| `CommandCapture.FirstReportRecordsTwice` | crates/oryxis-app/src/command_capture.rs:52-58 | the first command a shell reports is captured by both paths |
| `CommandCapture.RecordedTwiceExactly` | crates/oryxis-app/src/command_capture.rs:52-58 | a command is captured from the user's side - read off the grid, deferred or guessed - and as reported if and only if it is so captured and then, with no new prompt and no other start between, reported and started |
| `CommandCapture.RecordedTwiceOncePerConnection` | crates/oryxis-app/src/command_capture.rs:52-58 | between two reconnects at most one command is, and no report was confirmed before it since the last reconnect |
| `CommandCapture.GuessedTwiceOnce` | crates/oryxis-app/src/command_capture.rs:101-133 | and of the guessed ones at most one in a pane's life |
| `CommandCapture.NoCaptureAfterReport` | crates/oryxis-app/src/command_capture.rs:56-58 | after a confirmed report nothing is captured from the user's side until a reconnect |
| `CapturePane.Pane.ObserveLine` | crates/oryxis-app/src/command_capture.rs:70-134 | one submitted line does what the machine does |
| `CapturePane.Pane.ObserveInput` | crates/oryxis-app/src/command_capture.rs:47-137 | one user write captures exactly the machine's notes, one guess at most |
| `CapturePane.Pane.ObserveMark` | crates/oryxis-app/src/command_capture.rs:152-199 | one mark does what the machine does |
| `CapturePane.Pane.ObserveOutputMarks` | crates/oryxis-app/src/command_capture.rs:143-202 | one output batch captures exactly the machine's notes |
| `CapturePane.Pane.Reconnect` | crates/oryxis-app/src/dispatch_ssh/session.rs:363 | a reconnect forgets that the shell reported |
| `CapturePane.BatchIsEvents` | crates/oryxis-app/src/command_capture.rs:143-202 | a batch is that many events of the run |
| `ScanPump.UnusedIsOk` | crates/oryxis-app/src/dispatch_history.rs:720-727 | a search not yet used satisfies what every run keeps |
| `ScanPump.PumpStaysOk` | crates/oryxis-app/src/dispatch_history.rs:610-647 | over any interleaving generations only grow, at most one scan of the current one is in flight, and done + queued + in flight is the total |
| `ScanPump.ScanStepConserves` | crates/oryxis-app/src/dispatch_history.rs:864-920 | a scan step moves recordings between queue, done and flight and loses none |
| `ScanPump.StaleResultChangesNothing` | crates/oryxis-app/src/dispatch_history.rs:628-643 | a result of a retired generation changes nothing |
| `ScanPump.DrainedMeansDone` | crates/oryxis-app/src/dispatch_history.rs:864-920 | a built search with nothing in flight has done all it set out to |
| `ScanPump.EachResultShrinksTheWork` | crates/oryxis-app/src/dispatch_history.rs:628-643 | every current result leaves strictly less to do |
| `ScanPump.PumpDrains` | crates/oryxis-app/src/dispatch_history.rs:628-643 | over any run in which a search stands, results come back and scans still owed never exceed what it set out to do; once as many came back as were owed, nothing is in flight and done equals total |
| `ScanPump.ResultsDrainIt` | crates/oryxis-app/src/dispatch_history.rs:864-920 | and there is always such a run: at most as many results as scans are owed drain it |
| `ScanPump.GoneForGood` | crates/oryxis-app/src/dispatch_history.rs:494-528 | a recording deleted with no scan under way never shows again |
| `ScanPump.DeletedExcerptReturnsExactlyIfInFlight` | crates/oryxis-app/src/dispatch_history.rs:520-528 | a deleted recording's excerpt can return if and only if its scan was in flight under the current generation |
| `ScanPump.PrunedExcerptShowsExactly` | crates/oryxis-vault/src/store/logs.rs:420-448 | the excerpt of a recording pruned by size or age can show from then on if and only if the search held it or had its scan in flight |
| `ScanCoverage.ToScanNames` | crates/oryxis-app/src/dispatch_history.rs:838-842 | a recording is set out to be scanned if and only if it is listed and neither cheaper tier answers it |
| `ScanCoverage.ToScanInOrder` | crates/oryxis-app/src/dispatch_history.rs:838-842 | in the order of the list, each once |
| `ScanCoverage.ToScanCounts` | crates/oryxis-app/src/dispatch_history.rs:838-850 | and as many as are unanswered |
| `ScanCoverage.StartIsExact` | crates/oryxis-app/src/dispatch_history.rs:806-856 | a started search scans first and queues exactly the unanswered recordings, in order, less the unreadable ones before the first readable; its total is all the unanswered |
| `ScanCoverage.OwedOverARun` | crates/oryxis-app/src/dispatch_history.rs:628-643 | over any run of a standing search a recording comes back scanned at most as often as it was owed, and one still in the store has come back or is still owed |
| `ScanCoverage.EveryUnansweredIsScannedOnce` | crates/oryxis-app/src/dispatch_history.rs:806-920 | a search that runs until it has drained scanned every listed, unanswered recording still in the store exactly once, and no other |
| `ScanCoverage.NothingShowsUntilATimer` | crates/oryxis-app/src/dispatch_history.rs:715-727 | after a reset nothing shows again, whatever comes back late, before a timer set since has fired |
| `ScanCoverage.LongNeedleWaits` | crates/oryxis-app/src/dispatch_history.rs:788-795 | a longer needle keeps what shows and waits on a timer of its own |
| `ScanCoverage.StaleTimerStartsNothing` | crates/oryxis-app/src/dispatch_history.rs:623-631 | a timer of an older generation, or with the search turned off, starts nothing |
| `HistorySearch.HistoryContent.Reset` | crates/oryxis-app/src/dispatch_history.rs:720-727 | every result is dropped, the generation counted on |
| `HistorySearch.HistoryContent.Debounce` | crates/oryxis-app/src/dispatch_history.rs:779-795 | a long enough needle retires what runs and sets a timer, a short one resets |
| `HistorySearch.HistoryContent.Step` | crates/oryxis-app/src/dispatch_history.rs:864-920 | recordings are popped until one is readable |
| `HistorySearch.HistoryContent.Start` | crates/oryxis-app/src/dispatch_history.rs:806-856 | over an open store the recording started and the queue are exactly the ones no cheaper tier answered, in order, less the unreadable ones first in line; the total is every unanswered one |
| `HistorySearch.HistoryContent.Scanned` | crates/oryxis-app/src/dispatch_history.rs:628-643 | a current result counts and the next scan starts; a stale one does neither |
| `HistorySearch.HistoryContent.Forget` | crates/oryxis-app/src/dispatch_history.rs:520-528 | the excerpt goes and queued scans of it count as done |
| `Decimals.PaddedSort` | signaling-worker/worker.js:204-207 | numbers that fit the padding sort as text as they do as numbers |
| `Decimals.PaddingSortsExactlyBelow` | signaling-worker/worker.js:204-207 | all numbers below a bound sort so if and only if the bound is at most ten to the width |
| `RelayQueue.FirstKeyIsOldest` | signaling-worker/worker.js:204-209 | of two keys the earlier timestamp's is listed first, whatever the suffixes |
| `RelayQueue.InboxStaysOk` | signaling-worker/worker.js:192-252 | every frame stays in exactly one place and every order relation holds after every event |
| `RelayQueue.RelayDeliversOnce` | signaling-worker/worker.js:192-252 | over any interleaving, with stamps in any order, posted = delivered + in hand + queued + expired, each frame delivered at most once with its sender and body |
| `RelayQueue.PostedExactly` | signaling-worker/worker.js:197-213 | what the inbox holds as posted is exactly what some event posted: sender, body, stamp and key |
| `RelayQueue.AnsweredWasPosted` | signaling-worker/worker.js:228-241 | every frame answered is one that was posted, under the key it was listed by |
| `RelayQueue.ExpiredWasDropped` | signaling-worker/worker.js:210-213 | and a frame is lost only to its own expiry |
| `RelayQueue.PollTakesTheFirst` | signaling-worker/worker.js:225-243 | an undisturbed poll of an inbox that is not empty answers its first frame and takes it out, and nothing else |
| `RelayQueue.PollMissesAnExpiredFrame` | signaling-worker/worker.js:229-244 | a poll whose frame expires under it answers nothing, loses nothing else and is ready for the next |
| `RelayQueue.RelayOrderExactly` | signaling-worker/worker.js:204-252 | delivery follows posting stamps if and only if no delivered frame was posted below one already listed and delivered too |
| `RelayQueue.TimelyPostsKeepOrder` | signaling-worker/worker.js:204-252 | so posts stamped no earlier than what has been listed are delivered in order |
| `PollSchedule.ListCallsIsUnique` | signaling-worker/worker.js:218-251 | the closed-form call count is the only one whose last call is the first at or past the deadline |
| `PollSchedule.CallBudget` | signaling-worker/worker.js:54-62 | 26 list calls at 110 s and never more than 28 |
| `PollSchedule.LongPoll` | signaling-worker/worker.js:217-252 | the loop makes exactly that many calls with exact sleeps, never more with late ones, and returns less than 5 s late |
| `DeviceRegistry.StorageIsLastStanding` | signaling-worker/worker.js:314-374 | what is stored is the last accepted register not wiped since, with its alarm 300 s on, or nothing at all |
| `DeviceRegistry.PinHolds` | signaling-worker/worker.js:314-340 | from an accepted register to the next wipe no other key is accepted |
| `DeviceRegistry.RefreshedOwnerKeepsTheName` | signaling-worker/worker.js:336-374 | an owner one of whose registers is at every event less than 300 s old, and who does not unregister, is never displaced, and its registers are the only ones accepted |
| `DeviceRegistry.Registry.HandleRegister` | signaling-worker/worker.js:317-341 | a register is refused exactly when one under another key stands, else stored with the alarm set again |
| `DeviceRegistry.Registry.HandleLookup` | signaling-worker/worker.js:343-349 | a lookup finds the address of the last accepted register not wiped since, and nothing otherwise |
| `DeviceRegistry.Registry.HandleUnregister` | signaling-worker/worker.js:351-363 | refused exactly when a register under another key stands; otherwise nothing is left |
| `DeviceRegistry.Registry.HandleAlarm` | signaling-worker/worker.js:368-374 | the alarm wipes everything, 300 s or more after the last accepted register |
| `Utf8.DecodeEncode` | crates/oryxis-terminal/src/input_tracker.rs:309-330 | a scalar's bytes decode to it, and continue as its first byte says |
| `Utf8.EncodedExamples` | crates/oryxis-terminal/src/input_tracker.rs:309-330 | one scalar of each length, byte for byte |
| `Utf8.LeadsAreOrdered` | crates/oryxis-terminal/src/input_tracker.rs:309-330 | a longer encoding leads with a greater byte |
| `LineMirror.StepKeepsValid` | crates/oryxis-terminal/src/input_tracker.rs:95-330 | every byte leaves the caret on the line and any half-read scalar completable |
| `LineMirror.FeedScalar` | crates/oryxis-terminal/src/input_tracker.rs:309-330 | a scalar beyond ASCII, arriving byte by byte, is inserted whole |
| `LineEditor.KillWordExactly` | crates/oryxis-terminal/src/input_tracker.rs:184-196 | kill word drops the blanks before the caret and the whole run of non-blanks before them, and nothing more |
| `LineEditor.MirrorIsTheEditor` | crates/oryxis-terminal/src/input_tracker.rs:95-338 | over every key sequence, however each key is sent, the mirror has the line, the caret and the submitted lines of an editor over keys, and is tainted as that editor is lost |
| `LineEditor.TaintedExactly` | crates/oryxis-terminal/src/input_tracker.rs:11-17 | the mirror is tainted if and only if, since the last submit or interrupt, some key was none of the modelled ones or overflowed the line |
| `LineEditor.ComposingExactly` | crates/oryxis-terminal/src/input_tracker.rs:75-86 | it vouches for exactly the text before the caret, when nothing is after it and nothing was lost |
| `LineEditor.PasteExactly` | crates/oryxis-terminal/src/input_tracker.rs:124-140 | a pasted text that fits is on the line verbatim and vouched for if and only if it holds no ESC |
| `LineEditor.PastedArrowGoesUnnoticed` | crates/oryxis-terminal/src/input_tracker.rs:289-299 | a pasted Right arrow is dropped, and the line vouched for without it |
| `InputTracker.Tracker.Feed` | crates/oryxis-terminal/src/input_tracker.rs:95-106 | the byte loop submits and leaves what the specification does |
| `InputTracker.Tracker.GroundByte` | crates/oryxis-terminal/src/input_tracker.rs:108-223 | one byte outside an escape sequence |
| `InputTracker.Tracker.EscByte` | crates/oryxis-terminal/src/input_tracker.rs:225-240 | one byte after ESC |
| `InputTracker.Tracker.CsiByte` | crates/oryxis-terminal/src/input_tracker.rs:242-287 | one byte of a CSI sequence, paste markers among them |
| `InputTracker.Tracker.Ss3Byte` | crates/oryxis-terminal/src/input_tracker.rs:289-298 | one byte of an application-cursor sequence |
| `InputTracker.Tracker.TryFlush` | crates/oryxis-terminal/src/input_tracker.rs:309-330 | a complete scalar is inserted, an impossible one dropped |
| `InputTracker.Tracker.ComposingLine` | crates/oryxis-terminal/src/input_tracker.rs:75-84 | the line, only while the mirror vouches for it |
| `Completion.EraseLine` | crates/oryxis-app/src/dispatch_history_suggest.rs:166-172 | one erase byte per character empties the line |
| `Completion.BracketedLands` | crates/oryxis-terminal/src/widget/clipboard.rs:23-34 | bracketed text lands literally after what is there |
| `Completion.PickLandsExactly` | crates/oryxis-app/src/dispatch_history_suggest.rs:148-178 | from every vouched-for line the pick leaves exactly the command, submitted once when it runs, if and only if: no escape is begun and the text is bracketed or has no tab or newline; or one is, and a bracketed paste extends the line after a lone ESC, or nothing is sent |
| `Completion.TaintStays` | crates/oryxis-terminal/src/input_tracker.rs:108-223 | short of an interrupt a tainted line stays tainted until submitted, and is submitted so |
| `Completion.Grows` | crates/oryxis-terminal/src/input_tracker.rs:300-330 | the line never grows by more characters than begin in what is typed |
| `Completion.StorableFits` | crates/oryxis-app/src/command_capture.rs:40-41 | every stored command fits the mirror |
| `ChatHistory.FlushExact` | crates/oryxis-app/src/chat_persist.rs:21-113 | a flush leaves the stored copy equal to the live turns if and only if the history shrank below the cursor or the stored rows still begin it |
| `ChatHistory.FlushKeepsStep` | crates/oryxis-app/src/chat_persist.rs:52-113 | from a copy in step the flush stays in step if and only if the vault loses no turn it is given |
| `ChatHistory.FlushRestarts` | crates/oryxis-app/src/chat_persist.rs:48-57 | below the cursor the whole conversation is rewritten |
| `ChatHistory.FlushRepairsNothing` | crates/oryxis-app/src/chat_persist.rs:52-60 | a copy out of step with its count intact is never repaired |
| `ChatHistory.RowsCountTheTurns` | crates/oryxis-app/src/chat_persist.rs:159-170 | as many turns are stored as are worth keeping: every one but questions pending and empty answers, errors included |
| `ChatHistory.RowSaysTheTurn` | crates/oryxis-app/src/chat_persist.rs:136-152 | and each says its turn's role, text, command, risk and output |
| `ChatHistory.RowsKeepTheOrder` | crates/oryxis-app/src/chat_persist.rs:68-72 | in the order of the turns |
| `ChatHistory.FlushTouchesItsOwn` | crates/oryxis-app/src/chat_persist.rs:52-113 | a flush leaves the live turns and every other stored conversation alone |
| `ChatHistory.StripExactly` | crates/oryxis-app/src/dispatch_ai/conversation.rs:213-225 | a retry drops the trailing errors and answers and nothing before them |
| `ChatHistory.WaitingExactly` | crates/oryxis-app/src/dispatch_ai/tools.rs:482-491 | a tool's output goes to the last exchange of its id still without one, if there is one |
| `ChatHistory.BubblesAndQuestions` | crates/oryxis-app/src/dispatch_ai/conversation.rs:170-190 | an error or a question takes the place of the empty bubble; an answered question leaves only its note |
| `ChatHistory.ChunkExact` | crates/oryxis-app/src/dispatch_ai/conversation.rs:88-119 | a streamed piece breaks the copy if and only if the answer it extends was already counted |
| `ChatHistory.ResultExact` | crates/oryxis-app/src/dispatch_ai/tools.rs:474-505 | a tool result breaks it if and only if its exchange was already counted, or a turn is lost |
| `ChatHistory.RetryExact` | crates/oryxis-app/src/dispatch_ai/conversation.rs:195-241 | a retry is reconciled if and only if the flush before the new answer goes through |
| `ChatHistory.StepExact` | crates/oryxis-app/src/dispatch_ai/conversation.rs:27-241 | event by event the copy stays in step if and only if the event touches no counted turn and the vault loses none |
| `ChatHistory.SavedIsLive` | crates/oryxis-app/src/chat_persist.rs:1-12 | over any run without such an event every flush leaves exactly the savable turns, each once, in order |
| `ChatHistory.OpeningCatchesUp` | crates/oryxis-app/src/dispatch_history.rs:405-416 | opening the saved conversation mid-answer stores the half answer as complete |
| `ChatHistory.HalfAnswerIsKept` | crates/oryxis-app/src/chat_persist.rs:9-12 | after which the rest of that answer is never stored by the flush that ends it |
| `ChatTab.Tab.FlushHistory` | crates/oryxis-app/src/chat_persist.rs:21-113 | the flush in place: early returns, restart, one append per new turn, cursor moved past refused ones too |
| `ChatTab.Tab.AppendRows` | crates/oryxis-app/src/chat_persist.rs:99-107 | the turns from the cursor on are appended in order, refused ones passed over |
| `ChatTab.Tab.DetachSaved` | crates/oryxis-app/src/chat_persist.rs:123-128 | the tab forgets its conversation; what is stored stays |
| `DirectImport.CreatedPathLeads` | crates/oryxis-core/src/models/group.rs:341-379 | making a path only adds folders under new ids, and then walking it leads to the folder returned |
| `DirectImport.CreateTwiceIsOnce` | crates/oryxis-core/src/models/group.rs:332-337 | making an existing path makes nothing |
| `DirectImport.PrepareLeads` | crates/oryxis-app/src/dispatch_direct_import.rs:110-121 | every path the rows name leads, in the final list, to the folder it was given |
| `DirectImport.SavedIsAddsThenUpdates` | crates/oryxis-app/src/dispatch_direct_import.rs:129-186 | saving row by row comes to the additions and then the updates |
| `DirectImport.SuccessMirrors` | crates/oryxis-app/src/dispatch_direct_import.rs:173-201 | after a save that goes through, memory is again exactly the vault, each record once |
| `DirectImport.RowsAreWritten` | crates/oryxis-app/src/dispatch_direct_import.rs:129-172 | every row saved is in the vault as written; every removal the vault takes is gone; only removal rows remove |
| `DirectImport.SavedAsAsked` | crates/oryxis-app/src/dispatch_direct_import.rs:129-172 | each saved row's host is in the vault with the row's name and settings, stamped now for an update and as the row says for an addition, and filed plan by plan: the target, its own group, none, that folder, or where the path leads |
| `DirectImport.FatesExactly` | crates/oryxis-app/src/dispatch_direct_import.rs:131-172 | each row comes to the one outcome that applies: saved if and only if it is an addition or a real change of a host still as shown, its folder stands and the vault takes it |
| `DirectImport.TheRestIsKept` | crates/oryxis-app/src/dispatch_direct_import.rs:129-201 | a record no row saves and none removes is as it was |
| `DirectImport.OutcomeExactly` | crates/oryxis-app/src/dispatch_direct_import.rs:122-179 | the save stops at a folder if and only if one is refused, at the commit if and only if the batch did not open or does not commit, and goes through otherwise |
| `DirectImport.OnlyShownHostsAreOverwritten` | crates/oryxis-app/src/dispatch_direct_import.rs:139-151 | a host is overwritten only by a row that showed it as it still was, and removed only by a removal row |
| `DirectImport.CreatedFoldersAreReached` | crates/oryxis-app/src/dispatch_direct_import.rs:165-168 | a row sent to a new folder is filed where its path leads |
| `DirectImport.FolderFailureUndone` | crates/oryxis-app/src/dispatch_direct_import.rs:122-127 | a refused folder leaves memory alone, and the vault if and only if the batch had opened or the first new folder was the one refused |
| `DirectImport.CommitFailureUndone` | crates/oryxis-app/src/dispatch_direct_import.rs:173-179 | a failed commit leaves memory as it was, and the vault if and only if the batch had opened or no folder was made and no row added or updated |
| `ImportWorker.OpenVault.MakePath` | crates/oryxis-core/src/models/group.rs:341-379 | the segment loop finds or makes each folder and returns the deepest |
| `ImportWorker.OpenVault.PrepareFolders` | crates/oryxis-app/src/dispatch_direct_import.rs:110-121 | the folder loop over a scratch list, each new path once |
| `ImportWorker.OpenVault.SaveFolders` | crates/oryxis-app/src/dispatch_direct_import.rs:122-122 | new folders saved until one is refused |
| `ImportWorker.OpenVault.SaveRow` | crates/oryxis-app/src/dispatch_direct_import.rs:133-171 | one row: skipped, refused for its host or folder, or stamped, filed and saved |
| `ImportWorker.OpenVault.FileRow` | crates/oryxis-app/src/dispatch_direct_import.rs:156-168 | where the row's plan files its host, or that the folder has gone |
| `ImportWorker.OpenVault.SaveRows` | crates/oryxis-app/src/dispatch_direct_import.rs:129-172 | the row loop: every row's fate, the lists to add and replace, the vault written |
| `ImportWorker.OpenVault.ReplaceUpdated` | crates/oryxis-app/src/dispatch_direct_import.rs:183-187 | each updated host takes its place in the list |
| `ImportWorker.OpenVault.RemoveHosts` | crates/oryxis-app/src/dispatch_editor/lifecycle.rs:782-812 | what the vault deletes leaves memory |
| `ImportWorker.OpenVault.SaveDirectImport` | crates/oryxis-app/src/dispatch_direct_import.rs:83-201 | the whole save in place, rollback to the batch's start included |
| `CastTiming.Intervals` | crates/oryxis-app/src/dispatch_history.rs:1099-1126 | no interval is negative, typed-command rows play no part, and the sums are the replay clock |
| `CastTiming.ReplayedExactly` | crates/oryxis-app/src/dispatch_history.rs:1099-1107 | each row is replayed in its place or, if it is a typed command, left out |
| `CastTiming.ReplayedCounts` | crates/oryxis-app/src/dispatch_history.rs:1107-1107 | typed commands are the only rows left out |
| `CastTiming.IntervalOf` | crates/oryxis-app/src/dispatch_history.rs:1097-1119 | an event without a time plays 50 ms on; one with a time not before it, and at it when it waits |
| `CastTiming.ClockIsGreatestFloor` | crates/oryxis-app/src/dispatch_history.rs:1108-1117 | the clock is the greatest of what any earlier stamp plus the untimed steps since demands |
| `CastTiming.OnTimeExactly` | crates/oryxis-app/src/dispatch_history.rs:1109-1117 | every stamped event plays at its stamp if and only if no stamp goes back |
| `LocalStartup.SentOnceAndQuietly` | crates/oryxis-app/src/dispatch_local.rs:223-244 | over any interleaving a pane is sent exactly its startup command, once, from when its output first went quiet, and nothing if it had closed by then |
| `LocalStartup.SilenceIsQuiet` | crates/oryxis-app/src/dispatch_local.rs:196-244 | once a pane's timers have run out it has gone quiet if and only if it ever printed |
| `LocalStartup.ParkedExactly` | crates/oryxis-app/src/dispatch_local.rs:170-195 | a command is parked from its arming until its pane goes quiet, with every batch since counted |
| `LocalStartup.Parked.ArmStartup` | crates/oryxis-app/src/dispatch_local.rs:190-195 | once armed, a pane that has not gone quiet has its command parked with its batches counted |
| `LocalStartup.Parked.NoteOutput` | crates/oryxis-app/src/dispatch_local.rs:206-218 | a batch sets a timer, numbered as the batch, exactly while a command is parked |
| `LocalStartup.Parked.FireStartup` | crates/oryxis-app/src/dispatch_local.rs:223-244 | a timer types the command exactly when its pane has just gone quiet and is still open |
| `ColorPicker.RgbSurvives` | crates/oryxis-app/src/color_picker.rs:233-266 | every colour of the unit cube, greys and sector boundaries included, survives RGB to HSV to RGB |
| `ColorPicker.HsvSurvives` | crates/oryxis-app/src/color_picker.rs:233-266 | every hue in [0, 360) with saturation and value in (0, 1] survives HSV to RGB to HSV |
| `ColorPicker.HuesAreTheColours` | crates/oryxis-app/src/color_picker.rs:233-250 | the sixths of the circle are red, yellow, green, cyan, blue, magenta |
| `ColorPicker.GreyHasNoHue` | crates/oryxis-app/src/color_picker.rs:233-250 | without saturation a colour is the grey of its value |

## Left out

- Transcript: input starts from characters (lossy UTF-8 decoding of a recording is not modelled), colours are 8-bit triples instead of `f32` components, columns and rows are unbounded.
- Transcript: absolute cursor addressing and the second screen are ignored by the code and so have no effect here.
- Records.ApplyRecords: one clock reading per merge and no per-record failure to save, delete or decrypt, and no record skipped; the port-forward rules deleted along with a host, the group-cycle repair after a merge, and the sealing of records are not modelled.
- Records: equal id and stamp name equal content (`Agree`, `AgreeToTheMilli`), as every convergence result assumes; the vault fingerprint is taken as injective in place of SHA-256.
- GitDevice.ActsWell: edits carry newer stamps and merging clocks are not behind the deletions they apply; without the second the branch can go down, as `GitRounds.LaggingClockLowersTheBranch` shows.
- GitPublished: a commit names its device, as its message does; devices have different names.
- GitSync: the `git diff --cached` early exit before a commit, credentials and time budgets are left out; pushes from outside the modelled devices are assumed to climb like theirs.
- GitWorker.Worker.GitRound: one device's round against a remote that others extend between its commands; edits to its own vault within a round are in `GitSync` only.
- FolderSync: a rename is atomic and a reader sees one file or the other; directory creation and file errors are success flags; `FolderWorker` records one device's round, with the others' interleavings in `FolderSync` only.
- CommandCapture: what the terminal grid shows is an arbitrary screen given with each event, as the grid is not part of this model.
- ScanPump: the paging of recordings and the extra rows a search attaches, the scanning of a recording's text and its snippet are not modelled; a scan returns any snippet or none.
- RelayQueue: one consumer per inbox, a store that lists what was put (no eventual consistency), no two frames under one key, and stamps of at most 13 digits; the GET handler's list, get and delete are steps on values, its waiting is `PollSchedule.LongPoll`.
- PollSchedule.LongPoll: sleeps are exact or late by given amounts; reads take no time unless counted as lateness.
- DeviceRegistry: signatures, timestamps and the field checks in front of the registry are not modelled; keys reach it non-empty.
- LineEditor: keys arrive whole; a lone ESC, a byte that starts no UTF-8 scalar, and text pasted with an ESC in it are not among the keys (`LineEditor.PasteExactly` and `Completion.PickLandsExactly` say what the last and a begun escape lead to); what a remote shell does with a tab is only that the mirror no longer vouches for the line.
- Completion: ranking of history rows, the popup's selection and muting are left out as view state.
- ChatHistory: one tab's conversation among the vault's; deleting a conversation always succeeds; the pruning of the oldest conversations beyond 500 is not modelled.
- DirectImport: a commit with no batch open is taken to fail; for `CommitFailureUndone` the clock is past every stamp in memory; folder paths are given as trimmed segments; planning of rows from a sheet is taken at its promise (no two rows for one host); passwords, tombstones and the order of a list reloaded after removals are not modelled.
- LocalStartup: a pane is armed once; snippets with steps are sent like commands; whether a pane is still open is an event of the run.
- ImportWorker.OpenVault.RemoveHosts: the open editor's flush, the deletion of the hosts' saved conversations and the reload of every list from the vault are not modelled.
- ColorPicker: real arithmetic in place of `f32`; hex text and dragging are left out.
- Views, key navigation, file dialogs, clipboard, HTTP, cryptography, SSH itself and the database are not part of this model; their outcomes are parameters where a result depends on them.
