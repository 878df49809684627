# Nakode, verified

A Dafny model of the parts of Nakode that are algorithms and state machines of their own: the prompt editor,
the canonical transcript with its proof chain, the activation journal and its lease, the calendar and usage
aggregation of the diagnostics, the framing of the code-mode worker, the durable ledgers (child reports
and relationships, follow-ups and their pages, machine PATH settings, the cloud agent catalogue), the tool policy of agents, and the
handoff between providers. Classes follow the source's own state; each method is proved against a
specification, and the lemmas say what that specification means: refinement of a flat text, caches that agree
with a computation from scratch, invariants over all runs, round trips and conservation.

`dafny verify dfyconfig.toml` checks the project.

| file | models |
|---|---|
| FlatText, Editor, Wrap, Characters | `src/editor.rs`: the line buffer as a refinement of a text with one offset, the wrapper and the window |
| Proofs, Transcript | `src/domain_transcript.rs` and the proof code of `src/state/projection.rs` |
| Identity, Idempotency, Activation | `src/activation.rs` and the identities of `src/control_service.rs` |
| Lease | the activation lock file of `src/control_service.rs`, as interleaved steps |
| Calendar, Decimal, Usage, Diagnostics | `src/diagnostics.rs`, the usage totals of `nakode-protocol`, and the timestamps of `src/control_service.rs` |
| Utf8, Json, Framing | `src/codemode_worker.rs`; UTF-8 as in section 3 of RFC 3629, strings as in section 7 of RFC 8259 |
| ChildReports, Relationships | `src/child_reports.rs` and its relationships, the adoption of `src/followups/coordination.rs`, and the turn reports of `src/session.rs` |
| Followups, Batches, Paging | `src/followups.rs` with its admission, removal and batches; the listings of reports and follow-ups |
| MachinePath | `src/machine_path.rs` |
| Handoff | `src/handoff.rs` |
| AgentPolicy | `src/agent.rs` and the projection of `src/backend.rs` |
| CloudAgents, Sorting | `src/cloud_agents.rs`; stable sorting, also for the lists of `src/diagnostics.rs` |
| Options, Sequences, Numbers | small helpers |

## Where the code does less than one would think

Each of these is a lemma or a contract, with the exact condition under which the code does keep the property.

- The activation lock can be held twice. A lock whose owner bytes were never written looks the same as a new
  lock that is not written yet, so the recheck before the unlink cannot tell them apart
  (`Lease.StaleLockCollides`, `Lease.UnfencedRunCollides`). A reclaim is safe exactly when owner bytes were
  seen or the file is still thirty seconds old at the unlink, or when no live process is creating the lock
  (`Lease.ReclaimsDeadOwner`). Runs with safe reclaims exclude a second holder, and any other run can be turned
  into one with two (`Lease.SafeExactly`).
- Replacing the token before the cursor inserts its replacement without normalising it, so a newline in it
  ends up inside a line (`Editor.EditorState.ReplaceTokenBeforeCursor`, at one input `Editor.NewlineInToken`).
  Its present callers complete the names of commands and skills, which hold no newline.
- Handlers for requests still queued when activation ends look at the phase before the key, so a remembered
  key is replayed only while the journal is activated (`Activation.ActivationFile.CompleteTerminalRecheck`).
  When the same target is scheduled again before the queue is drained, the retry of a remembered request is
  refused (`Activation.RememberedButNotReplayed`).
- Matching a recorded target is not transitive (`Identity.MatchingIsNotTransitive`). Two matches compose exactly
  when the first target has a revision, or the second has none, or the binaries at both ends are the same
  (`Identity.MatchingComposesIff`).
- The identities given to retained evidence can collide: one entry has no key and stands at the place that is the
  key of another (`Transcript.RetainedIdsCollide`).
- A session whose activity in the window all started at time zero is counted in the totals but not listed
  (`Diagnostics.SessionsConserved`, at one input `Diagnostics.CountedButNotListed`).
- A restart can revive the PATH of a command that was cleared since (`MachinePath.RestartKeeps`,
  `MachinePath.ClearThenSave`).

## Assumptions

SHA-256 is injective: a digest is modelled by what it hashes. Fresh identifiers are unique. Process ids are
not reused while the lease protocol runs, and a live creator writes its owner bytes before its file is thirty
seconds old. Texts are sequences of Unicode scalar values, with their UTF-8 length where the source counts
bytes. A report on display is its body, or a shorter answer decoded from it with a note of at most 256 bytes.
The header of a message in the prompt of its batch has at most 16 KiB, since its fields are bounded.
The images of a converted prompt have at most 20 MiB together, as `src/server.rs` checks (lines 5180-5189).
Outcomes of files, processes, clocks and network calls are parameters of the methods that use them.

## Model

| member | source | states |
|---|---|---|
| FlatText.SplitJoin | src/editor.rs:38-40 | Splitting a joined buffer gives the buffer back exactly when no line holds a newline |
| FlatText.SplitSound | src/editor.rs:95-98 | Splitting a text always gives newline-free lines that join to that text |
| FlatText.OffsetInjective | src/editor.rs:3-9 | Different row and column pairs of a buffer are different offsets of its text |
| FlatText.OffsetSurjective | src/editor.rs:3-9 | Every offset of the text is the place of some row and column, so the flat view has one cursor position per buffer position |
| FlatText.FlatViewDetermines | src/editor.rs:3-42 | Two newline-free buffers with the same text and offset are the same lines with the same row and column |
| FlatText.ReplaceWithin | src/editor.rs:339-344 | Replacing a range of one line replaces the same range of the text, and moves the offset behind it accordingly |
| FlatText.SplitLine | src/editor.rs:124-131 | Splitting a line is inserting one newline at the offset |
| FlatText.JoinLines | src/editor.rs:133-148 | Joining two lines removes exactly the newline between them |
| Editor.NormaliseFixed | src/editor.rs:110-122 | A normalised text is its own normal form: no control character but tab and newline, and no carriage return |
| Editor.EachBreakIsOneNewline | src/editor.rs:110-122 | Each CRLF, each lone CR and each lone LF becomes one newline, wherever it stands in a text |
| Editor.OtherCharactersStay | src/editor.rs:100-122 | Any other character becomes one character, itself if it is printable and else the replacement character |
| Editor.SetTextRestores | src/editor.rs:95-98 | Inserting the text of a buffer into an empty one restores the same lines exactly when the lines are newline-free and printable |
| Editor.EditorState.SetText | src/editor.rs:95-98 | The text becomes the normalised text, with the cursor at its end |
| Editor.EditorState.InsertChar | src/editor.rs:100-108 | A newline or the sanitised character enters the text at the cursor, which moves behind it |
| Editor.EditorState.InsertStr | src/editor.rs:110-122 | Exactly the text with its line breaks normalised and control characters replaced enters at the cursor |
| Editor.EditorState.InsertNewline | src/editor.rs:124-131 | One newline enters the text at the cursor |
| Editor.EditorState.Backspace | src/editor.rs:133-148 | The one character before the offset leaves the text, line breaks included; at offset zero nothing changes |
| Editor.EditorState.DeleteWordBackward | src/editor.rs:150-163 | The range from where a word move to the left ends up to the cursor leaves the text |
| Editor.EditorState.DeleteToLineStart | src/editor.rs:165-176 | The range from the line start leaves the text, or the line break before an empty range |
| Editor.EditorState.Delete | src/editor.rs:178-191 | The one character after the offset leaves the text; at the end nothing changes |
| Editor.EditorState.MoveLeft | src/editor.rs:193-200 | The offset goes down by one, until zero |
| Editor.EditorState.MoveRight | src/editor.rs:202-210 | The offset goes up by one, until the end of the text |
| Editor.EditorState.MoveWordLeft | src/editor.rs:212-235 | The cursor goes to the start of the word in its line, or the line above; on newline-free lines that is where a scan of the flat text over blanks and then one character class ends |
| Editor.EditorState.MoveWordRight | src/editor.rs:237-258 | The same to the right |
| Editor.EditorState.MoveUp | src/editor.rs:260-265 | The same column in the line above, or its end |
| Editor.EditorState.MoveDown | src/editor.rs:267-272 | The same column in the line below, or its end |
| Editor.EditorState.MoveHome | src/editor.rs:274-276 | The start of the line |
| Editor.EditorState.MoveEnd | src/editor.rs:278-280 | The end of the line |
| Editor.EditorState.MoveDocumentStart | src/editor.rs:282-285 | Offset zero |
| Editor.EditorState.MoveDocumentEnd | src/editor.rs:287-290 | The end of the text |
| Editor.TokenUnique | src/editor.rs:54-72 | The token start is the only place with no blank and no later slash from it to the cursor that is the line start, follows a blank or holds a slash |
| Editor.EditorState.TokenBeforeCursor | src/editor.rs:54-72 | The token is the text from that place to the cursor |
| Editor.EditorState.ReplaceTokenBeforeCursor | src/editor.rs:74-85 | The token is replaced as it is; the buffer stays newline-free exactly when the replacement has no newline |
| Editor.NewlineInToken | src/editor.rs:74-85 | An "@" that is completed with a newline leaves a newline inside a line |
| Editor.EditorState.Window | src/editor.rs:298-337 | As many display rows as fit are shown: from the first one on when the cursor row is among those, and else up to the cursor row; the cursor stands at its place inside the window, each row has at most `width` columns, and the prompt is marked at the first display row alone |
| Editor.CursorRowShown | src/editor.rs:298-337 | The cursor row computed by the scan is a row of the cursor line among all display rows |
| Editor.VisibleShowsCursor | src/editor.rs:314-337 | The scrolled cut contains the cursor row, with the cursor coordinates inside the window, so the conversions to 16 bits cannot fail |
| Wrap.WrapDisplayLine | src/editor.rs:387-424 | The loop gives the greedy rows of the rendered line and the place of the cursor column in them |
| Wrap.RowsGreedy | src/editor.rs:387-424 | Rows break only where the next cell does not fit |
| Wrap.GreedyUnique | src/editor.rs:387-424 | There is one greedy way to break a line, so the wrapper is fixed by the rule |
| Wrap.RowsLoseNothing | src/editor.rs:387-424 | The rows concatenate to the rendered line |
| Wrap.PlainLineShown | src/editor.rs:387-424 | A line of printable characters that fit reads across its rows as it is written |
| Wrap.OtherCellsShown | src/editor.rs:393-405 | A tab takes four blanks where there is room; any other control character, and what is too wide for a row, one replacement character |
| Wrap.GreedyFits | src/editor.rs:387-424 | Each row is at most as wide as the display |
| Wrap.CursorInRow | src/editor.rs:387-424 | The cursor lies in the row of its cell, at most at the display width |
| Transcript.IndexIff | src/domain_transcript.rs:722-735 | With an exact index a key maps to a row exactly when that row has the key, and keys are unique |
| Transcript.ChainKept | src/domain_transcript.rs:252-260 | A change of entries and images from the watermark on keeps the stored chain exact up to the watermark |
| Transcript.DomainTranscript.ChangedFrom | src/domain_transcript.rs:252-260 | The watermark drops to the index, and the cached prefixes are dropped with it |
| Transcript.DomainTranscript.ChangedAtKey | src/domain_transcript.rs:263-270 | The watermark drops to the place of the key, or to the end for an unknown key, unless it was lower |
| Transcript.DomainTranscript.Restore | src/domain_transcript.rs:426-442 | A stored entry is appended, or replaces the one with its key, with chain and index kept exact |
| Transcript.DomainTranscript.EditByKey | src/domain_transcript.rs:567-684 | A field edit by key changes that entry alone, and lowers the watermark to its place |
| Transcript.Edited | src/domain_transcript.rs:567-684 | Field by field, what each edit sets, extends, or fills in only where nothing was, and that it leaves all other fields; a delta goes behind the body |
| Transcript.DeltasConcatenate | src/domain_transcript.rs:531-565 | A body streamed in deltas is their concatenation, however it is cut |
| Transcript.DomainTranscript.Push | src/domain_transcript.rs:451-476 | An unkeyed entry is appended; nothing before it changes, so the watermark stays below it |
| Transcript.DomainTranscript.Upsert | src/domain_transcript.rs:492-529 | A keyed entry is appended, or its content is replaced in place, with chain and index kept exact |
| Transcript.DomainTranscript.AppendDelta | src/domain_transcript.rs:531-565 | A delta extends the body of its entry, or starts that entry |
| Transcript.DomainTranscript.MoveBefore | src/domain_transcript.rs:686-701 | A later entry moves directly before its anchor, and artifacts of keys that no entry has are dropped; anything else is left alone |
| Transcript.MovedProperties | src/domain_transcript.rs:686-701 | The move permutes the entries, keeps the relative order of all others, and puts the entry directly before the anchor |
| Transcript.DomainTranscript.Remove | src/domain_transcript.rs:703-710 | The entry leaves, and with it every artifact whose key no entry has; those of the other keys stay as they are |
| Transcript.DomainTranscript.Reindex | src/domain_transcript.rs:722-735 | The index is rebuilt exactly from the entries, and exactly the artifacts of present keys are kept |
| Transcript.DomainTranscript.SetSourceTransportForUserTurn | src/domain_transcript.rs:629-639 | Every user entry of the turn that has no transport gets it, and nothing else changes |
| Transcript.DomainTranscript.FinishRunningEntries | src/domain_transcript.rs:712-720 | Every running entry gets the status, and only those |
| Transcript.DomainTranscript.RetainEntryIds | src/domain_transcript.rs:479-490 | Each identity is replaced by one made of the session and the key, or the place; the watermark is lowered to zero |
| Transcript.RetainedIdsCollide | src/domain_transcript.rs:478-490 | Two entries get the same retained identity exactly when one has no key and its place is the key of the other |
| Transcript.DomainTranscript.SetLabeledImages | src/domain_transcript.rs:352-370 | The images of a key are replaced, or removed when there are none; the watermark is lowered to zero |
| Transcript.DomainTranscript.RestoreImages | src/domain_transcript.rs:387-398 | Each stored image is appended to those of its key, in order; the watermark is lowered to zero |
| Transcript.DomainTranscript.StoredImages | src/domain_transcript.rs:372-385 | The images of every keyed entry, in the order of the entries |
| Transcript.ImagesRoundTrip | src/domain_transcript.rs:372-398 | Restoring what was stored gives every key of an entry its images back, in order, and no other key any |
| Transcript.DomainTranscript.SetLocalFiles | src/domain_transcript.rs:333-345 | The local files of a key are replaced, or removed when there are none |
| Transcript.DomainTranscript.MarkHistoryTruncated | src/domain_transcript.rs:277-280 | The history counts as truncated, and its proofs start again |
| Transcript.DomainTranscript.SetStreamActive | src/domain_transcript.rs:410-417 | The stream state changes, and the proofs start again |
| Transcript.DomainTranscript.SetStreamLabel | src/domain_transcript.rs:419-422 | The stream label changes, and the proofs start again |
| Transcript.DomainTranscript.ShareEntryDigests | src/domain_transcript.rs:242-244 | Digests of another transcript are taken over, as long as they are exact |
| Transcript.DomainTranscript.TranscriptPrefixes | src/state/projection.rs:2049-2125 | Proving again from the watermark gives exactly the proofs of the whole transcript from scratch: one more than there are visible entries, and for every k the proof at k commits to the first k of them in order, with their image counts and code-mode parents, and to whether the history was cut |
| Transcript.DomainTranscript.Reprove | src/state/projection.rs:2049-2125 | The same proofs, from the suffix behind the reusable steps, or from all of it when the code-mode tools changed |
| Transcript.DomainTranscript.CachedPrefixes | src/domain_transcript.rs:221-226 | A filled cache is never stale: what it returns proves the history as it is now |
| Transcript.DomainTranscript.VisibleEntryDigests | src/state/projection.rs:2031-2048 | The digests read off a complete chain are those of the visible entries, each with the content of its entry and the parent it names |
| Transcript.DomainTranscript.EntryDigest | src/domain_transcript.rs:167-182 | A cached digest is returned only for an equal entry, so it is the digest of the entry |
| Transcript.DomainTranscript.PruneEntryDigests | src/domain_transcript.rs:184-196 | Once there are more digests than entries, exactly the digests of present entries are kept |
| Proofs.StepsPrefix | src/state/projection.rs:2075-2110 | The steps over a prefix are a prefix of the steps, so a chain can be continued |
| Proofs.PrefixesCommit | src/state/projection.rs:2088-2116 | The newest chain commits to every visible entry, and the listed prefixes to one entry more each |
| Proofs.ProofsProve | src/state/projection.rs:2049-2125 | The proofs from scratch are one more than the visible entries; each commits to as many of these as its place says, in order, with image counts, and to a parent exactly where that is a code-mode call of the transcript |
| Proofs.VisibleConcat | src/state/projection.rs:2127-2135 | What is visible of two stretches of a transcript is what is visible of one and then of the other |
| Identity.SameBuildIsEquivalence | src/control_service.rs:124-148 | Same build is reflexive and symmetric, and transitive |
| Identity.AdoptedTargetIsSameBuild | src/activation.rs:413-423 | A recorded target that matched an executable and adopted its revision is of the same build as it |
| Identity.MatchingIsNotTransitive | src/activation.rs:418-423 | Matching a recorded target is not transitive: three identities show it |
| Identity.MatchingComposesIff | src/activation.rs:418-423 | Two matches compose exactly when the first target has a revision, or the second has none, or the last executable is the same binary as the first target |
| Identity.OneRunningBuild | src/activation.rs:413-416 | A service that runs the build of one executable runs that of another exactly when the two are of the same build |
| Idempotency.HandledRemembers | src/activation.rs:268-325 | A handled request leaves a sound memory: distinct keys, at most fifty, at most one rejection a key, and replays its own outcome |
| Idempotency.HandledKeepsOthers | src/activation.rs:272-289 | A handled request changes the outcome of no other key that stays remembered |
| Idempotency.RepeatedRequestReplays | src/activation.rs:1328-1347 | In any run, while a key stays remembered, a repeated request replays the outcome of the earlier one and changes nothing |
| Idempotency.FirstHandlingRetained | src/activation.rs:272-289 | A key handled for the first time is remembered through the next forty-nine requests, whatever they are |
| Idempotency.FirstOutcomeReplays | src/activation.rs:1328-1347 | Each of the next fifty requests that repeats a key replays the outcome of its first handling and changes nothing |
| Idempotency.RunSound | src/activation.rs:268-325 | The memory stays sound over any run |
| Activation.ObservedIsCurrent | src/activation.rs:395-405 | A stored journal with the attempt and revision a client saw is the very journal it saw: no write came between |
| Activation.ActivationFile.Write | src/activation.rs:395-405 | Every write raises the revision |
| Activation.ValidateForceFence | src/activation.rs:1390-1428 | A force passes exactly when attempt, revision and blocker set are those of the journal |
| Activation.ActivationFile.CheckOnceFenced | src/activation.rs:1464-1558 | Every branch of a check: an executable that is not the target fails for good; a target that runs is activated; without a restart the blockers found are filed as blocked, or their error as retryable; a restart ends activated or retryable. It restarts only the recorded target and only at quiescence, and its record says what it left |
| Activation.ActivationFile.ActivateQuiescentService | src/activation.rs:1567-1595 | The restart ends in one filed check: activated when the replacement verifies, and otherwise retryable, with the blockers found after a restart that failed |
| Activation.ActivationFile.FinishActivation | src/activation.rs:1597-1672 | A replacement is accepted exactly when it is ready and has the expected build; otherwise the fault is filed as retryable |
| Activation.ActivationFile.RecordRetryableFailure | src/activation.rs:1615-1638 | The failure is filed as retryable with its blockers: blocked when there are any, and failed when there are none |
| Activation.RecordedKeepsNewest | src/activation.rs:1464-1638 | Each record keeps the newest checks before it in their order, fifty with the new one |
| Activation.ActivationFile.ManualRecheck | src/activation.rs:1151-1183 | A recheck is handled as the idempotency memory says: a replay changes nothing, and a new key is carried out exactly when the executable is known, with one filed check as its branch says; that the journal changed under the lease cannot be |
| Activation.ActivationFile.ForceActivate | src/activation.rs:1185-1264 | A force restarts exactly when its key is new, the service supports it and the fence holds, and then with the current blocker set and, below the highest revision, against the one journal its client can have seen; what the restart left is filed, and a refusal says which of these failed |
| Activation.ActivationFile.PerformConditionalForce | src/activation.rs:1266-1319 | An accepted force succeeds exactly when the restart does and verifies; otherwise the fault is filed as retryable, and its rejection names it and is remembered |
| Activation.ActivationFile.PersistAcceptedExecutionRejection | src/activation.rs:1376-1388 | The rejection of an accepted key is filed, once |
| Activation.ActivationFile.Serve | src/activation.rs:1151-1264 | Whatever happens to an attempt, its rechecks and forces are a run of the idempotency memory; a remembered key leaves the whole journal as it is, and due checks, new helpers, observations and reschedulings leave the memory |
| Activation.ActivationFile.React | src/activation.rs:473-637 | A due check, a new helper, an observation and a rescheduling keep the attempt and its memory |
| Activation.ActivationFile.CompleteTerminalRecheck | src/activation.rs:1053-1078 | A queued recheck is refused unless the journal is activated, whatever its key; then it is handled like a live one |
| Activation.ActivationFile.CompleteTerminalForce | src/activation.rs:1080-1130 | The same for a queued force, which restarts nothing |
| Activation.RememberedButNotReplayed | src/activation.rs:1053-1078 | A recheck is rejected; a check activates, and the target is scheduled again before the queue is drained: the queued retry is refused, while a live one is replayed |
| Activation.ActivationFile.ScheduleDeferredActivation | src/activation.rs:557-637 | A current service or a pending attempt for the same target is left alone; otherwise exactly one journal is written |
| Activation.ScheduledAwaits | src/activation.rs:557-637 | That journal awaits the executable: the same attempt with its memory, history and blockers when the target is the same, a fresh one that remembers nothing otherwise |
| Activation.ActivationFile.InstallHelperIdentity | src/activation.rs:1132-1149 | A new helper clears the failure and changes nothing else of the attempt |
| Activation.ActivationFile.ObserveCurrentService | src/activation.rs:473-551 | An observed service settles the attempt exactly when it is current, has the build and is the target |
| Lease.MutualExclusion | src/control_service.rs:1410-1485 | Under the invariant no two live acquirers hold the lease |
| Lease.ReclaimsDeadOwner | src/control_service.rs:1468-1485 | A reclaim takes the lock of a dead owner exactly when it is fenced or no live acquirer is creating the lock |
| Lease.StepKeepsInv | src/control_service.rs:1411-1485 | Every step keeps the invariant, a reclaim exactly when it is fenced or no live acquirer is creating the lock |
| Lease.UnfencedReclaim | src/control_service.rs:1433-1456 | An unfenced reclaim keeps the invariant exactly when no live acquirer is creating the lock |
| Lease.FencedRunsAreSafe | src/control_service.rs:1411-1485 | Runs whose reclaims are fenced only make safe reclaims |
| Lease.SafeRun | src/control_service.rs:1411-1485 | A run makes safe reclaims only exactly when it never takes the lock of a live acquirer, and then keeps the invariant |
| Lease.SafeRunsExclude | src/control_service.rs:1411-1485 | From idle acquirers, two live holders at the end of a run with safe reclaims are one |
| Lease.UnsafeReclaimCollides | src/control_service.rs:1433-1485 | From any unsafe reclaim, four steps lead to two live holders |
| Lease.UnsafeRunCollides | src/control_service.rs:1411-1485 | A run with an unsafe reclaim can be turned into one that ends with two live holders |
| Lease.SafeExactly | src/control_service.rs:1411-1485 | From idle acquirers, the reclaims of a run are all safe exactly when the run cannot be turned, at one of its unlinks, into one that ends with two live holders |
| Lease.StaleLockCollides | src/control_service.rs:1433-1456 | From any stale unwritten lock two live acquirers can both come to hold the lease |
| Lease.TakesOver | src/control_service.rs:1411-1485 | A lone acquirer takes the lease over from any lock that was left behind, by a dead owner or unwritten and old |
| Lease.CondemnsLeftBehind | src/control_service.rs:1436-1485 | An acquirer condemns a lock exactly when it was left behind, and otherwise leaves everything as it was |
| Lease.DeathLeavesLockBehind | src/control_service.rs:1468-1485 | The lock of a process that dies is left behind, at once if it was written, and after thirty seconds if not |
| Lease.Takes | src/control_service.rs:1411-1435 | Where there is no lock an acquirer takes the lease |
| Lease.Drops | src/control_service.rs:1459-1466 | A holder that drops the lease takes its own lock away, and no other |
| Lease.UnfencedRunCollides | src/control_service.rs:1411-1485 | Such a run starts from idle acquirers, so the protocol is not safe without the fence |
| Calendar.CivilRoundTrip | src/diagnostics.rs:390-403 | Every day number has a valid Gregorian date, whose day number it is |
| Calendar.NumberRoundTrip | src/diagnostics.rs:390-403 | Every valid date has a day number, whose date it is |
| Calendar.NextNumber | src/diagnostics.rs:390-403 | The next date has the next number, across months, leap years and eras |
| Calendar.ConsecutiveDays | src/diagnostics.rs:390-403 | Consecutive day numbers give successive dates |
| Calendar.Epoch | src/diagnostics.rs:390-403 | Day zero is the first of January 1970 |
| Calendar.FormatUtcDayInjective | src/diagnostics.rs:390-403 | Different days are printed differently |
| Calendar.FormatUtcTimestampInjective | src/control_service.rs:2108-2117 | Timestamps of different seconds are printed differently |
| Calendar.FormatUtcDayDenotes | src/diagnostics.rs:390-403 | The text names the date with this number: its year by sign and value in at least four characters, its month and its day in two digits each |
| Calendar.FormatUtcTimestampDenotes | src/control_service.rs:2108-2117 | The text names the date of its day, and hour, minute and second by value in two digits each |
| Decimal.FormatDecimalIsNearest | src/diagnostics.rs:444-451 | The printed decimal is the nearest one with that many digits, halves rounded up |
| Usage.MapSumAt | crates/nakode-protocol/src/diagnostics.rs:43-62 | A sum over a map does not depend on the order of its keys |
| Usage.MapSumUpdate | crates/nakode-protocol/src/diagnostics.rs:43-62 | Changing one value changes the sum by as much |
| Diagnostics.UsageConserved | src/diagnostics.rs:104-155 | The days of the report add up to all usage in the window, and its tools to the tool columns of that |
| Diagnostics.ReportDayHolds | src/diagnostics.rs:184-209 | Each day and provider shows the usage of that day, of that provider |
| Diagnostics.ToolHolds | src/diagnostics.rs:219-240 | Each tool of a provider holds the calls, failures, bytes and durations of its own uses |
| Diagnostics.SessionsConserved | src/diagnostics.rs:104-136 | The listed sessions add up to all usage exactly when no session has all of its activity in the window at time zero |
| Diagnostics.CountedButNotListed | src/diagnostics.rs:175-217 | A session whose only tool use started at zero is in the totals but not listed |
| Diagnostics.DaysSum | src/diagnostics.rs:184-209 | Booking a session adds its usage in the window to the days |
| Diagnostics.ToolsSum | src/diagnostics.rs:219-240 | Booking a session adds its calls, failures, bytes and durations to the tools |
| Diagnostics.LatestIff | src/diagnostics.rs:210-216 | A session has a latest activity exactly when something in the window started after time zero |
| Diagnostics.LatestIsLast | src/diagnostics.rs:184-217 | The latest activity is one of those in the window, and none of these started later |
| Diagnostics.ListedIff | src/diagnostics.rs:104-124 | Listed is the usage of every row that was active in the window, and no other |
| Diagnostics.TotalsByColumn | src/diagnostics.rs:242-270 | Each column of the totals is the sum of the readings that belong to it |
| Diagnostics.ScannedCounts | src/diagnostics.rs:104-113 | The wanted rows are counted |
| Diagnostics.Aggregate.AddToolUsage | src/diagnostics.rs:219-240 | One more call of the tool: each of its counters goes up by the call, and no other tool changes |
| Diagnostics.Aggregate.AggregateSession | src/diagnostics.rs:175-217 | Every activity in the window is booked on its day and tool, and the session is listed with its totals |
| Diagnostics.Aggregate.SumDaily | src/diagnostics.rs:152-155 | The report totals are the sum of the days, in whatever order |
| Diagnostics.Collect | src/diagnostics.rs:82-173 | The report is refused exactly when a wanted session does not decode; otherwise it covers the window of so many days up to now, conserves usage in days, tools and sessions, and its lists are sorted and cut as asked |
| Diagnostics.ValuesInOrder | src/diagnostics.rs:137 | The values of the tool map in the order of their keys, each once, with the same sum |
| Diagnostics.ListedToolsMeaning | src/diagnostics.rs:137-143 | Each tool is listed once, those of which the model saw more first, then those called more often, then in the order of their keys |
| Diagnostics.BusiestShown | src/diagnostics.rs:127-135 | The sessions that are shown and those that are cut off are all listed ones, in order, and some are cut off only at the limit asked for, at most 500 |
| Sorting.SortedInOrder | src/diagnostics.rs:127-143 | Sorting puts elements in order |
| Sorting.SortedIsStable | src/diagnostics.rs:127-143 | Sorting keeps the order of elements that tie |
| Sorting.OneStableOrder | src/diagnostics.rs:127-143 | There is one way to put elements in order that keeps those that tie as they are |
| Framing.ReadFrame | src/codemode_worker.rs:219-252 | The frame is a function of the stream alone, however it is split into chunks |
| Framing.ReadLine | src/codemode_worker.rs:219-252 | The loop finds the first line of the stream, its end or its excess length, and consumes exactly that line |
| Framing.FrameFaults | src/codemode_worker.rs:219-252 | No frame comes of an empty stream, of more than 1 MiB without a newline, or of less than that when it ends without one, each with its own fault |
| Framing.WriteMessage | src/codemode_worker.rs:254-261 | The message as compact JSON and then a newline are appended, and read as JSON that text means the message |
| Framing.FrameRoundTrip | src/codemode_worker.rs:219-261 | A framed text is read back exactly when it has no newline, fits, and does not end in a carriage return |
| Framing.ConversationRoundTrip | src/codemode_worker.rs:219-261 | Messages written one after the other are read back in order, up to the end of input |
| Framing.MessageRoundTrip | src/codemode_worker.rs:219-261 | What is read back of a written worker message is its JSON, exactly when it fits in a frame, and that says the message |
| Framing.MessagesArrive | src/codemode_worker.rs:219-261 | Worker messages that fit, written one after the other, are all read back, in order, and each says what was written |
| Json.CompactIsPlain | src/codemode_worker.rs:254-257 | Compact JSON holds no control character, so a message has no line break and does not end in a carriage return |
| Json.CompactRoundTrip | src/codemode_worker.rs:254-257 | Every value is read back from its compact text |
| Framing.SerializedSays | src/codemode_worker.rs:33-40 | The tag and the fields of a written message say which message it is |
| Utf8.DecodeEncode | src/codemode_worker.rs:245-248 | Decoding an encoded text gives the text |
| Utf8.EncodeDecode | src/codemode_worker.rs:245-248 | Bytes that decode are the encoding of what they decode to |
| Utf8.BoundaryIff | src/handoff.rs:80-83 | The boundary test holds exactly between two characters |
| Utf8.BoundaryNear | src/handoff.rs:80-83 | A boundary is at most three bytes away |
| ChildReports.ReportStore.Execute | src/child_reports.rs:104-182 | A key with a receipt replays it or is refused; a new key runs exactly an allowed command and keeps its receipt; a refusal changes no table |
| ChildReports.ReportStore.LinkInTransaction | src/child_reports.rs:187-256 | A link is made exactly for a related, open pair that is linked already, or keeps the links a forest of depth one with room |
| ChildReports.ReportStore.PublishInTransaction | src/child_reports.rs:258-311 | A report is filed exactly when it is well formed, its child is linked, and its id is new with room or was used for the same report |
| ChildReports.ReportStore.RecordQuestion | src/child_reports.rs:47-99 | A question is filed once, in its own name space, unless it is too long or the child has no room |
| ChildReports.ReportStore.EndTurn | src/session.rs:4422-4444 | The turn of a linked child is reported once, without a limit |
| ChildReports.PlaceKeepsForest | src/child_reports.rs:229-246 | Giving a child a parent for which there is a place keeps the forest: no session both parent and child, at most 32 children |
| ChildReports.StepKeepsGood | src/child_reports.rs:104-182 | Every command keeps the forest, the order and uniqueness of the reports, and the receipts attached to links |
| ChildReports.RefusalKeepsKey | src/child_reports.rs:138-182 | A refused call leaves no receipt |
| Relationships.Reparent | src/child_reports/relationships.rs:48-103 | A used key or source call replays the same reparenting and refuses any other; a new one is done exactly when it is authentic and allowed at the revision that was read, and then the child has the new parent, one revision later |
| Relationships.ApplyReparenting | src/child_reports/relationships.rs:123-183 | The checks pass exactly for an orphan, or for another parent's child if that was asked for, that is unchanged, open, settled and not held, and has a place |
| Relationships.Adopt | src/followups/coordination.rs:84-138 | A chat that instructs an agent becomes its parent exactly when it is not yet, there is a place and the agent is not held; otherwise nothing changes |
| Relationships.EventKeepsGood | src/child_reports.rs:47-311 | Commands, questions, ended turns, reparentings and adoptions keep the forest, the files, the receipts and the transitions sound |
| Relationships.RunKeepsGood | src/child_reports.rs:47-311 | So does every run of them |
| Relationships.RunGrows | src/child_reports.rs:187-311 | Over any run a child stays linked, a key keeps its command, a report its place and a transition its row |
| Relationships.DoneOnce | src/child_reports.rs:121-137 | After a command is done under a key, any later call with that key changes nothing: the same command is done, another refused |
| Relationships.DoneIsThere | src/child_reports.rs:104-182 | Whatever was done, now or under its key before, is there in every later state: a child stays linked, and a report is held as it was published |
| Relationships.CarriedIsThere | src/child_reports.rs:104-182 | A command that is carried out leaves what it asked for, a new child under the parent it names |
| Relationships.TurnReportedOnce | src/session.rs:4422-4444 | However often a turn ends, it is reported once, with its first report |
| Relationships.TurnsAreGenuine | src/child_reports.rs:258-283 | Every turn report of a run goes back to a turn that ended in it |
| Relationships.ReportsAreThere | src/child_reports.rs:47-103 | A question of a linked child that was accepted, and a turn of it that ended, are held in every later state |
| Relationships.FilesBelowLimit | src/child_reports.rs:78-99 | Commands and questions file nothing for a child that has 4096 reports, whatever filed those |
| Relationships.RunKeepsLimit | src/child_reports.rs:294-306 | No child ever has more than 4096 reports besides those of its turns |
| Relationships.RevisionFences | src/child_reports/relationships.sql:1-22 | Between two moments at which a child has the same revision it kept its parent, so no change and change back goes unseen |
| Relationships.OneReparentingPerRevision | src/child_reports/relationships.rs:133-147 | Of the reparentings that saw the same revision of a child at most one is done |
| Relationships.ReparentedOnce | src/child_reports/relationships.rs:75-88 | After a reparenting, no request with its key, or with its parent and source call, changes anything |
| Relationships.RetryIsAnswered | src/child_reports/relationships.rs:75-93 | Such a retry is told that it is done if it asks for the same, and is refused otherwise |
| Paging.ListReports | src/child_reports.rs:386-430 | A page shows the next reports of the parent, at most the clamped limit, and says truly whether more are left |
| Paging.ListView | src/followups.rs:394-444 | A page is the longest one within the limit and the text budget, and says truly whether more are left |
| Paging.RestIsSuffix | src/followups.rs:406-412 | From the cursor of a row exactly the rows behind it are left, in both orders |
| Paging.EveryRowOnce | src/followups.rs:394-444 | Following the cursor to the end shows every row exactly once, in order |
| Paging.FollowingEnds | src/followups.rs:394-444 | It takes at most one page more than there are rows |
| Paging.ListingComplete | src/followups.rs:406-412 | A view lists exactly its messages |
| Paging.SoundIff | src/followups.rs:426-431 | A page makes progress exactly when the first remaining text fits the budget |
| Paging.AllMessagesSeen | src/followups.rs:394-444 | In every inbox that requests, reports of children and batches can lead to, following the cursor shows every message of the view once, oldest or newest first |
| Paging.AllReportsSeen | src/child_reports.rs:386-430 | Following the cursor shows every report of the children once, in sequence order |
| Followups.InboxStore.ExecuteAuthenticated | src/followups.rs:285-383 | A key with a receipt replays its result or is refused; a new key runs exactly an allowed command once and keeps the result: a follow-up then waits behind all others with the content of its command, a removed one is emptied, and a pause is set; a refusal leaves no trace |
| Followups.ValidatePrompt | src/followups.rs:83-131 | A prompt is accepted, with its size, exactly when its text, escaped text and attachments are within the bounds |
| Followups.MeasurePrompt | src/followups.rs:100-126 | The size of a prompt is the sum over its text and attachments, if each of these is valid |
| Followups.BytesCoverImages | src/followups.rs:100-126 | The bytes of a prompt cover its text and its images, and nothing else unless it has local files |
| Followups.InboxStore.AdmitMessage | src/followups/admission.rs:25-77 | Exactly when its prompt is valid and the inbox has room, a message is appended behind all others under the next sequence number, waiting, with this prompt, text, size and digest |
| Followups.InboxStore.MessageExists | src/followups/admission.rs:5-23 | An identity is free, taken by the same content, or an error |
| Followups.InboxStore.Take | src/followups.rs:327-363 | A follow-up is taken once under its identity: a new one is appended with its content, and a repeated one finds it there |
| Followups.InboxStore.RemovePending | src/followups/removal.rs:7-52 | A message is emptied and hidden exactly when no batch has claimed it; its row and identity stay |
| Followups.EventKeepsGood | src/followups.rs:285-383 | Requests, reports of children and batches keep the table in order, identities unique, texts and pending messages bounded, and removed messages empty |
| Followups.RunKeepsGood | src/followups.rs:285-383 | So does every run of them |
| Followups.RunGrows | src/followups.rs:301-381 | Over any run a message keeps its place, identity and content unless it is removed, and a receipt stays as it is |
| Followups.AcceptedOnce | src/followups.rs:301-326 | After a command was accepted under a key, any later request with it leaves the inbox alone: the same command is told the same result, another is refused |
| Followups.AcceptedIsThere | src/followups.rs:301-383 | A follow-up that was accepted, now or before, is in every later inbox under its session and identity, as its command gave it |
| Followups.NewFollowUpStays | src/followups.rs:327-363 | A follow-up accepted for the first time stands behind all others and waits, with prompt, text, size and digest of its command, and stays so, but for its batch, until a request removes it |
| Followups.KeptUntilRemoved | src/followups.rs:285-383 | Over any run a message changes only its batch until an accepted request removes it |
| Followups.ChildEventIsTaken | src/followups/admission.rs:25-77 | A report of a child that has no message yet and fits waits behind all others with its content; any other changes nothing |
| Followups.ExecutedIsCarriedOut | src/followups.rs:327-383 | What each command does to the rows of the inbox, said row by row |
| Followups.NeverResurrected | src/followups/removal.rs:5-52 | A removed message stays removed and empty, and nothing is ever admitted again under its identity |
| Batches.ClaimBatch | src/followups/batches.rs:300-373 | An unsettled batch is found again as it was claimed, or nothing is; otherwise exactly the oldest waiting messages that fit, at most 32, are claimed under a new identity |
| Batches.BoundedPrefix | src/followups/batches.rs:164-197 | The loop finds how many of the oldest messages fit |
| Batches.FittingIsLongest | src/followups/batches.rs:164-197 | That is the longest beginning of the messages within the bounds on text, images and attachments |
| Batches.Combine | src/followups/batches.rs:39-55 | The loop puts preamble, headers, quoted texts and attachments together in order |
| Batches.CombinedIsMeasured | src/followups/batches.rs:164-197 | What the bounds measure is what is sent: the bytes of the combined text, its attachments, and their images |
| Batches.CombinedFits | src/followups/batches.rs:300-373 | The prompt of a new batch is within 128 KiB of text, 20 MiB of images and eight attachments |
| Batches.OldestIsTaken | src/followups.rs:83-131 | What admission and attachment conversion accept always fits into a batch of its own, so no message blocks its inbox |
| Batches.ClaimTakesFirst | src/followups/batches.rs:341-363 | Claiming up to a cutoff takes exactly the first waiting messages, and leaves the others waiting |
| Batches.ClaimHappens | src/followups/batches.rs:300-373 | What a claim does is an event of the inbox, so it is covered by every property of runs |
| Batches.FenceDispatch | src/followups/batches.rs:377-387 | A claimed batch that is not blocked is fenced, and only that: exactly its messages go on to being dispatched |
| Batches.EventStaysBatched | src/followups/batches.rs:300-417 | Every event keeps one unsettled batch to a session, claims and settles the oldest messages first, and keeps the messages of a batch equally far |
| Batches.RunStaysBatched | src/followups/batches.rs:300-417 | So does every run |
| Batches.SentOnce | src/followups/batches.rs:377-387 | In any run a message is sent at most once, and only by the fence of the batch it had joined, which is not blocked |
| Batches.Delivered | src/followups/batches.rs:300-417 | A batch that is claimed, fenced and acknowledged has consumed exactly the messages that waited up to its cutoff, and nothing else changed |
| Batches.SentInOrder | src/followups/batches.rs:341-387 | When a message was sent, so was every earlier one of its session that was not removed |
| Batches.RemovedOrSent | src/followups/removal.rs:32-50 | A message that is ever removed is never sent, before or after |
| MachinePath.MachinePathService.constructor | src/machine_path.rs:58-126 | Loading gives settings in which an empty command means the inherited PATH, and which agree with the file |
| MachinePath.LoadedAs | src/machine_path.rs:58-126 | Loading takes the file as it is, or read-only its command with what the cache knows of that command; a valid PATH that the command gave is effective, and otherwise the inherited one; it fails exactly when the file cannot be read, or read-only is missing or holds an invalid command |
| MachinePath.MachinePathService.Resolve | src/machine_path.rs:164-192 | A sync replaces the PATH when the command gave one and it was written down; otherwise only the error changes |
| MachinePath.MachinePathService.Change | src/machine_path.rs:193-278 | A key replays its receipt or is refused; a new key is accepted exactly at the expected revision, and memory and file change together |
| MachinePath.StepKeepsGood | src/machine_path.rs:193-278 | Every change keeps memory and file in agreement and the source truthful; what a read-only service has synced is in its cache |
| MachinePath.RunKeepsGood | src/machine_path.rs:193-278 | So does every run of changes |
| MachinePath.CommandChangesOnlyBySave | src/machine_path.rs:233-258 | A sync never changes the command or revision, and no call lowers the revision |
| MachinePath.OneSavePerRevision | src/machine_path.rs:233-246 | At most one save ever commits for an expected revision, receipts or not |
| MachinePath.ReceiptsLast | src/machine_path.rs:273-276 | A receipt stays until the receipts are full |
| MachinePath.RestartKeeps | src/machine_path.rs:58-126 | A restart keeps what is saved; it keeps the effective PATH except in one family of states, given exactly |
| MachinePath.ReadOnlyRestart | src/machine_path.rs:58-126 | A read-only service that has synced keeps its effective PATH over a restart while the command is the same, and inherits PATH otherwise |
| MachinePath.ClearThenSave | src/machine_path.rs:238-251 | Clearing the command and saving another leads into that family |
| Handoff.FromTranscript | src/handoff.rs:41-95 | The package holds the longest end of the dialogue within 48 000 bytes, or its last message cut and marked, and counts the omitted messages |
| Handoff.Cut | src/handoff.rs:77-85 | The cut keeps the longest tail within the limit that starts at a character boundary, losing at most three more bytes |
| Handoff.FewestOmitted | src/handoff.rs:71-76 | No longer end of the dialogue would fit |
| Handoff.OneSaid | src/handoff.rs:41-70 | An entry of a user, of steering or of an assistant that is not blank says one message, in that role, and any other entry none |
| Handoff.DialogueConcat | src/handoff.rs:41-70 | What is said stands in the order of the entries |
| Handoff.PackageFits | src/handoff.rs:71-85 | The package is never longer than the limit and the marker |
| AgentPolicy.BuiltinToolAllowlist | src/agent.rs:270-329 | The list is what is asked for, named tools first, then missing context tools, then delegation, without what is kept out; there is none exactly for a definition that names no tools |
| AgentPolicy.ListedIsGranted | src/agent.rs:838-1145 | Every tool listed for a valid definition is canonical, not denied, and has its capability granted |
| AgentPolicy.DelegationIff | src/agent.rs:922-950 | The delegation tool is listed exactly when the definition can delegate |
| AgentPolicy.AllowedSurvives | src/agent.rs:270-329 | A tool allowed by name is listed, but for the two named removals |
| AgentPolicy.ProfileBounds | src/agent.rs:1025-1117 | No restrictive profile reaches the network or writes files, and only the command runner runs commands |
| AgentPolicy.ProfileExtremes | src/agent.rs:1025-1133 | A command runner has the shell, and the profile without tools gets none |
| AgentPolicy.ProjectProviderTools | src/backend.rs:152-200 | Every tool is allowed under its identity, once, or reported as unsupported |
| AgentPolicy.ProjectNative | src/backend.rs:152-200 | A native provider gets the whole list of a valid definition, with nothing unsupported |
| CloudAgents.ValidateCatalogue | src/cloud_agents.rs:21-47 | The loop accepts exactly a catalogue of valid, owner-defined definitions with models and different slugs |
| CloudAgents.CloudReplica.Apply | src/cloud_agents.rs:68-142 | The file is replaced exactly by an acceptable later revision of its profile; the same content is applied again without effect, and everything else is refused |
| CloudAgents.RunGoesForward | src/cloud_agents.rs:86-104 | A replica never changes its profile, never goes back, and never holds two contents of one revision |
| CloudAgents.RunStaysUsable | src/cloud_agents.rs:50-66 | What a replica stores can be loaded again |
| CloudAgents.NormalIgnoresOrder | src/cloud_agents.rs:69-76 | The order in which definitions with different slugs are sent does not matter |
| CloudAgents.NormalSorted | src/cloud_agents.rs:69-76 | The normal form has as many definitions, in the order of their slugs, and different slugs get different identities |
| CloudAgents.NormalKeeps | src/cloud_agents.rs:69-76 | But for its identity a definition is in the normal form exactly when it was sent |
| CloudAgents.EndsAtHighest | src/cloud_agents.rs:68-142 | From nothing, a run ends with the highest revision that was sent |
| CloudAgents.Converge | src/cloud_agents.rs:68-142 | Replicas that were sent the same catalogues agree, whatever the order and repetition |
| Sorting.OneOrder | src/cloud_agents.rs:69-72 | There is one way to put definitions with different slugs in order |

## Left out

- Input and output: sockets, gRPC, the terminal, processes, signals and timers; a failing file read or write is a parameter where a rule depends on it, and otherwise does not happen.
- Encodings: SQL, TOML, base64, and the text of messages; tables are sequences and maps, errors are constructors. Of written JSON only the worker messages are modelled, with the text of numbers as given; the reader of compact JSON says what they mean and stands for no code.
- Library tables: which characters are alphanumeric and how wide they are; they are parameters of the editor.
- `src/editor.rs`: `is_blank`.
- `src/domain_transcript.rs`: cloning, read-only accessors, and image payloads beyond their labels and count.
- `src/activation.rs`: timestamps, heartbeats, the helper process and its lease, which can be taken over from a live but stalled helper by design, the quarantine of a corrupt journal, the status synthesised for readers, and the titles and activity texts of blockers.
- Activation.ActivationFile.Write: the revision stays at its 64-bit maximum once it gets there, so the order of writes is claimed below that maximum only.
- `src/control_service.rs`: everything but identities, the activation lock and the timestamp; partial writes of the owner bytes, and the limit on attempts, are not part of the lock protocol.
- `src/diagnostics.rs`: the report's notes and its rendering as text; the days are a map instead of a list in the order of its keys; usage counters are not bounded by 64 bits, and day numbers are not bounded at all.
- `src/codemode_worker.rs`: the JavaScript engine, and decoding what the host sends.
- `src/child_reports.rs`: deletion of sessions, which also deletes links, reports and receipts; when a deletion hold is taken and expires is given, and so are whether a source call is authentic and whether all deliveries of a child are settled. The list of children that may ask questions is not part of this model.
- `src/followups.rs`: whether a relay is authentic, the header of a message, and the evidence text of a child's report are given. The sources of messages, and the counts and states shown beside a page are not part of this model.
- `src/machine_path.rs`: running the command, with its time and output limits; the PATH it gives is taken to be valid, as the source checks. The copy of the effective PATH for child processes follows the settings and is not modelled.
- `src/handoff.rs`: the rendered prompt, and the source model and session names, which are carried along.
- `src/agent.rs`: loading, saving and deleting definition files, warnings and prompts.
- `src/backend.rs`: model names, credentials and redaction.
- `src/cloud_agents.rs`: the file lock, which makes one `apply` run after another; runs of `apply` are sequences.
- `src/api_projection.rs`, `src/config.rs`, `src/controls.rs`, `src/app.rs`: field-by-field mappings, argument parsing and key tables.
