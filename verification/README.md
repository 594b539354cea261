# Verified model of the Auto-Healer core

Auto-Healer is a server that runs remediation actions on request. This project models the parts of it
whose correctness rests on state that is built up step by step, and proves what they promise:

- **The audit log** (`src/audit.py`). Entries are linked by number, previous hash and own hash; the state of
  the chain is read back from the last line of the file on every write; files are rotated aside and swept.
  `ChainVerifier` is the one-pass verifier, `AcceptedLogs` what it accepts and counts line by line, `TamperEvidence`
  what its acceptance proves, `Concatenation` joined files, `AuditStore` the folder as a value, `AuditSteps` when an
  append rotates and what it then deletes and writes, `AuditWriter` the class that changes the folder step by step,
  `AuditAppend` one append to an arbitrary log, `AuditRuns` whole runs from an empty folder, `AuditAnyLog` runs from
  any accepted log, `AuditJoined` the files of a run put back together. `TextLines` has the two ways in which a file
  is read: line by line forward in text mode, and the last line by chunks backward in bytes.
- **The approval protocol** (`src/main.py`). `ApprovalQueue` has the queue as a value and what each handler
  decides, `ApprovalService` the queue as it runs - a list of mutable entries which handlers keep hold of,
  even after an entry was pruned - and `ApprovalProtocol` the interleaving of all handlers and restarts, with
  failing saves. `ApprovalOutcome` proves what becomes of each request by refining the protocol to a simpler
  machine, and `ApprovalSteps` says of each kind of request exactly when it does what, in terms of its inputs. In the
  protocol the rate limit and cooldown verdicts are free; `ServerRuns` adds the limiter's queues and the cooldown
  records to the state and computes them, so its runs are some of the protocol's runs, and `ServerSteps` states the
  conditions of webhook, approve and record over the history of the run.
- **The rate limiter and the cooldown tracker** (`src/ratelimit.py`, `src/cooldown.py`): two structures that
  forget old data, against the full history.
- **Two pieces of the executor** (`src/executor.py`): the command line for a remote shell, and the life of
  secret temp files.

## Reading the model

`Json.Codec` holds the library functions that the audit log calls (JSON, SHA-256, `int`, `str`,
`fromisoformat`). Nothing is assumed of them but `Codec.Valid()`: a dumped entry is one line without
surrounding space that parses back to the same entry; space around a document is ignored; a text that is one
object and has a carriage return, with more than space on both sides of it, is no JSON up to there; and the empty
text is no JSON. The hash is any function. Where injectivity would be needed the result says "or here are two
different entries with the same hash" (`TamperEvidence.Collision`). Bytes and characters coincide, since
`json.dumps` writes ASCII only.

Clocks, directory listings, modification times, Vault, the file system's failures, remote exit codes and the
roles and scopes of API keys are parameters of each step, so every result holds for all their values. A step
of the protocol is one section under the approval lock or one thing done outside it; approve is a claim, later
a return with an outcome, later an audit entry.

What holds only under a condition carries that condition, and the condition is shown to matter:

- An append keeps a log verifiable unless its last line carries `sequence` and `entry_hash` but no
  `prev_hash`, or the caller's entry brings an `entry_hash` of its own. `AuditAppend.AppendAcceptedIff` has the
  exact condition, `HalfChainedTailBreaks` and `OwnHashBreaks` show what happens otherwise.
- An edited entry is reported exactly if it does not start a segment by repeating the entry before it
  (`TamperEvidence.EditDetectedIff`, for entries that the next one continues).
- The limiter reads the clock before it takes its lock, so readings can come out of order. If they run ahead by
  at most d, exactly the windows up to the limiter's window less d are guarded (`RateLimiter.SkewBoundIff`;
  under a limit of one, the whole window).
- Forgetting cooldowns is invisible exactly for cooldowns of at most 24 hours
  (`Cooldown.InvisibleIffWithinRetention`). An execution counts for the cooldown only once it is recorded: an
  attempt runs exactly if no recorded execution is recent (`AttemptRunsIff`), so handlers that overlap, or a
  process that dies between execution and record, let an action run again at once (`UnrecordedRunsAgain`).
- Two targets can share a cooldown exactly if one pair of names, joined by the separator, begins the other
  (`Cooldown.TargetsCanMeetIff`).
- The code logs a failed save of the approval queue and goes on. At-most-once execution survives any failed
  save but those that leave a claimed request pending on disk when the process dies, and does not survive
  these (`ApprovalOutcome.RestartRepeatsNoneIff`); likewise for rejections (`RestartRevivesNoneIff`). And no
  request is lost or reordered by a restart exactly if the disk had the very requests pending that wait
  (`RestartLosesNoneIff`); the lost save of a new request loses it (`FailedSubmitSave`).
- An approved execution runs on the controller computed at the claim. It is the one shown to the approver exactly
  if the request asked for an override or the default is still the same (`ApprovalProtocol.ApprovedControllerIff`).
- `shlex.quote` protects a value exactly where the template has it outside quotes
  (`ShellQuoting.QuoteWorksIffPlain`, `CommandRoundTripIff`).

Where code and documentation differ, the model follows the code:

- The docstring of `AuditChain` says that editing or deleting any past line is detectable. A log that ends
  early is a prefix, and `RearrangementIsPrefix` states both directions: exactly the prefixes pass. Likewise
  the last entry is not covered by the edit theorems, since nothing after it refers to its hash.
- The docstring of the sweep speaks of files named after a timestamp. The code takes any sibling whose name
  starts with the log's name and a dot, and so does `AuditSteps.SweepExactly`.
- A line that is JSON but no object makes the verifier raise instead of reporting a broken line, and makes an
  append with time-based rotation raise; both are in the model (`Crashed`, `Raise`).
- Approve does not check again that the controller exists. A claim can then end in an exception after the
  entry was marked approved; this is the step `Abort`.
- Two things leave the executor as exceptions although it means to report failures: a template that `format`
  rejects with anything but a missing parameter (in `run_kube_action` and `run_remote`, before any secret is
  touched), and a fault other than Vault's while an SSH key is written to its temp file (in `run_remote`, without
  leaving the file behind). Both are `Propagated`, and nothing else is.
- An override is checked when a request is made, but not again when it is approved.

## Model

| member | source | states |
|---|---|---|
| `TextLines.ReadLastLine` | src/audit.py:54-81 | for every content and every chunk size of at least 1 the backward read ends and returns the text after the last newline of the content stripped of trailing newlines, None if nothing remains |
| `TextLines.LastLineAmongLines` | src/audit.py:54-81 | the two readers agree: in a newline-terminated file that last line is, in the forward reading, what stands before only empty lines - in pieces where it has carriage returns |
| `TextLines.SplitLinesAppend` | src/audit.py:198-199 | text appended after a final newline only adds lines and changes none |
| `TextLines.SplitLinesExactly` | src/audit.py:332-333 | the lines that reading in text mode yields, put together with their breaks, are the content; no line has a break in it, and a carriage return before a newline is one break with it |
| `ChainVerifier.VerifyChain` | src/audit.py:297-393 | the report itself: ok exactly if every line is readable and the chained entries are linked, then with exactly the log's counts and boundaries; otherwise the first line up to which that fails, what is wrong with it, and the counts and boundaries of the lines before; it raises exactly if that line is JSON but no object |
| `ChainVerifier.ReportIsRight` | src/audit.py:319-393 | the same for the outcome of the pass over any lines |
| `ChainVerifier.VerifyMeaning` | src/audit.py:333-392 | acceptance in declarative terms, both directions: all lines readable, and each chained entry matches its own hash and starts a segment or continues the one before it; an accepted log's counts, last link and boundaries are exactly those of its lines |
| `AcceptedLogs.LinesExactly` | src/audit.py:333-340 | what each stripped line of the file counts as: nothing, no JSON, JSON but no object, or the entry it parses to |
| `AcceptedLogs.GoodExactly` | src/audit.py:338-392 | the accepted logs in terms of positions: every line is blank or an entry, and each entry with the three chain fields carries the hash of its other fields and either number 1 after 64 zeros, or the number after that of the last chained line before it and its hash |
| `AcceptedLogs.CountsExactly` | src/audit.py:349-392 | what the report counts: the chained lines, the other entries, and as boundaries exactly the first entries with a chained line somewhere before them |
| `ChainVerifier.FirstBrokenLineIsFirst` | src/audit.py:338-388 | the reported line ends the shortest prefix that is not accepted |
| `ChainVerifier.RunComposes` | src/audit.py:330-393 | verification of a + b is verification of b from the state left by a |
| `ChainVerifier.Absorbing` | src/audit.py:338-388 | once stopped, later lines change nothing in the report |
| `TamperEvidence.SameLastHashSameSegment` | src/audit.py:45-51 | two linked logs whose last entries carry the same hash have the same final segment entry by entry, or contain two different entries with one hash |
| `TamperEvidence.LastHashFixesFinalSegment` | src/audit.py:297-393 | the same for two files that the verifier accepts |
| `TamperEvidence.EditDetected` | src/audit.py:333-392 | whatever replaces a chained entry that the next one continues, the pass stops at that line exactly if it cannot take the new one, else at the successor's line with a broken link, with legacy and blank lines allowed in between; unless the new entry's body has the same hash, or the entry starts a segment by repeating the entry before it |
| `TamperEvidence.EditReported` | src/audit.py:338-388 | of the report: after replacing an entry that a later one continues, no report is ok; it names the edited line or, as out of place, the line of that later entry, and verifying raises only over a line that is JSON but no object |
| `TamperEvidence.EditDetectedIff` | src/audit.py:371-388 | that repetition is the exact exception: all edits of the entry are reported if and only if it is not one, and blanking a repetition passes |
| `TamperEvidence.EditOfSegmentDetected` | src/audit.py:333-392 | in an accepted one-segment log, replacing any line but the last is reported at that line or the next |
| `TamperEvidence.InsertionDetected` | src/audit.py:371-388 | a chained entry inserted anywhere between two consecutive ones, among legacy and blank lines, passes exactly if it repeats the segment start it follows |
| `TamperEvidence.RearrangementIsPrefix` | src/audit.py:371-388 | any selection of the entries of one segment, in any order, is linked exactly if it is a prefix, with no hash assumption |
| `TamperEvidence.RearrangedFileIsPrefix` | src/audit.py:333-392 | the same for files, where legacy and blank lines may move freely |
| `TamperEvidence.SegmentNumbers` | src/audit.py:371-376 | the entries of an accepted segment are numbered 1, 2, 3, … |
| `Concatenation.FirstChainLineIsFirst` | src/audit.py:345-347 | the line taken for the start of a joined file is its first chained entry |
| `Concatenation.RunAfter` | src/audit.py:371-392 | a file accepted on its own is accepted after any accepted log; its first chained entry becomes a boundary, all other numbers are its own, shifted |
| `Concatenation.JoinTwo` | src/audit.py:330-393 | two accepted files in a row are accepted and the report is the sum of both |
| `Concatenation.JoinedSegmentFiles` | src/audit.py:307-319 | any number of one-segment files in order: accepted, every line counted, boundaries exactly the start lines of the second and later files |
| `Concatenation.LinesOfJoinedContent` | src/audit.py:332-334 | joining newline-terminated files joins their lines |
| `AuditStore.FirstFree` | src/audit.py:227-233 | the suffix search ends for any finite folder, with the first name that no file has |
| `AuditStore.NamesRunOut` | src/audit.py:227-232 | a folder holds at most as many tried names as it has files |
| `AuditStore.ArchiveNameInjective` | src/audit.py:226-232 | no two suffixes give the same archive name |
| `AuditStore.ExpiredAmong` | src/audit.py:267-291 | every name it keeps is listed and expired, and every listed expired name is kept; which names are expired is `SweptExactly` |
| `AuditStore.SweptExactly` | src/audit.py:257-291 | a sweep takes exactly the other files named after the log that were modified more than the configured days before the clock reading, and none if no days are configured |
| `AuditStore.AppendFrame` | src/audit.py:202-248 | an append touches no other file, except that a rotation puts the old log, unchanged, under a name that was free and removes expired archives, which its marker lists |
| `AuditSteps.RotatesExactly` | src/audit.py:208-222 | an append rotates exactly if rotation is on, the log exists, and it has reached the size limit or its first entry's timestamp is the configured days old; it fails exactly if the age is asked for and the first entry is no object or has a timestamp that is no text or lacks a time zone |
| `AuditSteps.DecimalSpells` | src/audit.py:229-232 | a suffix is written as the decimal number without leading zeros |
| `AuditSteps.SweepExactly` | src/audit.py:224-294 | over a whole append that rotates: the log gets the plain archive name or the first free suffix; a file is deleted exactly if days are configured, its name begins with the log's name and a dot, and it was modified before the clock less these days; every other file is there unchanged |
| `AuditSteps.MarkerExactly` | src/audit.py:236-248 | the first of the two entries written then starts a chain and carries exactly the marker's fields: action, user, role, its time, the path of the archive, and the deleted names one by one in the order of the listing |
| `AuditAppend.AppendAcceptedIff` | src/audit.py:175-200 | an append to any accepted file is accepted exactly if the state read from the last line is the verifier's last link or genesis, and the caller's entry has no `entry_hash` or one whose presence does not change the hash; then one more entry is counted |
| `AuditAppend.PiecesOfObject` | src/audit.py:332-336 | where the last line of an accepted log has carriage returns, the forward reading sees one piece with its object and otherwise blank ones |
| `AuditAppend.LastLineAnchored` | src/audit.py:175-189 | the reader of the last line and the verifier agree on the last link unless that line is half chained |
| `AuditAppend.AppendKeepsAccepted` | src/audit.py:191-206 | an append keeps any accepted log accepted, legacy lines and several segments included, and restores its own conditions |
| `AuditAppend.HalfChainedTailBreaks` | src/audit.py:181 | a concrete half-chained last line after which the next append makes an accepted log fail |
| `AuditAppend.OwnHashBreaks` | src/audit.py:195-198 | an `entry_hash` in the caller's entry makes the log fail, or two different bodies collide |
| `AuditAppend.LastLineOfExtended` | src/audit.py:198-199 | what was just written is what the next append reads back as last line |
| `AuditRuns.SegmentVerifies` | src/audit.py:297-393 | the file that spells a segment is newline-terminated and verifies with all its entries counted and no boundary |
| `AuditRuns.StateFromBytes` | src/audit.py:175-189 | number and hash read from the bytes of such a file are those of the list |
| `AuditRuns.RunKeepsInv` | src/audit.py:202-294 | every run of appends, rotations, sweeps and outside removals keeps folder and lists in step |
| `AuditRuns.ReachableLogsVerify` | src/audit.py:202-294 | after any run from a folder without a log, the verifier accepts the live file and every archive still there, as one segment with all entries counted |
| `AuditRuns.RederivedStateIsListState` | src/audit.py:118-130 | after any run, the state re-derived from the file equals that of an in-memory list log |
| `AuditRuns.HistoryConserved` | src/audit.py:139-153 | after any run, all files that were ever the log spell the whole history in order; each is still there byte by byte under its own name, or was swept by a later rotation whose marker, the first entry of the file it opened, names it, or was removed from outside |
| `AuditRuns.WrittenEntriesJoinHistory` | src/audit.py:202-248 | what an append writes is what the history gains |
| `AuditAnyLog.RunStaysHealthy` | src/audit.py:118-153 | from any accepted log whose last line is not half chained: after any run of appends, rotations, sweeps and outside removals the live file is accepted, and so is every other file that was not there, unchanged, at the start |
| `AuditJoined.JoinedHistoryVerifies` | src/audit.py:307-319 | after any run that left every archive in place, the archives in order and then the live file read back as exactly the history, and verify with every entry counted and a boundary at each later file's start |
| `AuditJoined.NothingRemoved` | src/audit.py:257-259 | without a retention time and removals from outside, every archive stays in place over the whole run |
| `AuditWriter.AuditChain.ReadState` | src/audit.py:175-189 | returns the state that the last line stands for, genesis when it is no chained entry |
| `AuditWriter.AuditChain.AddChainFields` | src/audit.py:195-197 | the chained entry keeps the caller's other fields, continues the given number and hash, and matches its own hash when the caller brought none |
| `AuditWriter.AuditChain.WriteLocked` | src/audit.py:191-200 | the folder gains one line in the log file, nothing else; returns the chained entry |
| `AuditWriter.AuditChain.ReadFirstTimestamp` | src/audit.py:84-108 | the forward read of the first entry with its fallbacks, and the cases that raise in the caller |
| `AuditWriter.AuditChain.DecideRotation` | src/audit.py:208-222 | rotates only when enabled and the log exists, always when the size limit is reached, and raises only over the first timestamp under time-based rotation |
| `AuditWriter.AuditChain.FreeName` | src/audit.py:226-232 | the suffix loop ends with the first free name |
| `AuditWriter.AuditChain.Sweep` | src/audit.py:250-294 | removes exactly the other files named after the log that were modified before the clock less the configured days, none if there are no such days, and returns them in listing order |
| `AuditWriter.AuditChain.RotateAside` | src/audit.py:226-248 | rename, sweep and marker, in this order, give the rotated folder |
| `AuditWriter.AuditChain.Append` | src/audit.py:202-206 | the step-by-step append does what the append on values does; it changes nothing when deciding on the rotation raises |
| `ApprovalQueue.PruneKeeps` | src/main.py:231-243 | pruning keeps all pending entries in order and exactly the last, at most 500, processed ones in order |
| `ApprovalQueue.DropProcessedInOrder` | src/main.py:237-243 | what is kept stays in queue order |
| `ApprovalQueue.PendingProcessed` | src/main.py:796-830 | processing one entry takes exactly it out of the pending ones |
| `ApprovalQueue.Find` | src/main.py:262-267 | finds an entry with the id, or there is none |
| `ApprovalProtocol.RunKeeps` | src/main.py:752-932 | under every interleaving, whatever saves fail, queue and disk hold requests as they were queued, each at most once, and the disk equals the queue unless the last save failed |
| `ApprovalProtocol.RestartRestoresQueue` | src/main.py:215-228 | a restart after a successful save brings back the same queue |
| `ApprovalProtocol.ProcessedBounded` | src/main.py:231-259 | at most 500 processed entries, in memory and on disk, after any run |
| `ApprovalProtocol.ExecutionsAuthorised` | src/main.py:784-806 | every approved execution, even after restarts and failed saves, is the request exactly as it was queued, claimed by an approver other than the requester, with the requester still permitted; every direct one was permitted on the configured controller with no gate closed |
| `ApprovalProtocol.ApprovedControllerIff` | src/main.py:776-783 | after any run, an approved execution ran on the controller shown to the approver exactly if the request asked for an override or the action's default was still that one |
| `ApprovalProtocol.ApproveExecutesIff` | src/main.py:761-835 | after any run, an approve request starts an execution exactly if its id is pending and the request as queued may be approved, and what it starts is that request |
| `ApprovalProtocol.OneAuditEntryEach` | src/main.py:845-865 | every execution whose handler completed has exactly one audit entry; one in flight or cut short has none |
| `ApprovalSteps.WebhookExactly` | src/main.py:433-562 | a call is queued exactly if no limit is used up, action and controller exist, role, action scope, controller scope and any override are permitted, and it asks for approval; it is executed at once exactly if the same holds, it asks for none and its key is not cooling; otherwise nothing changes |
| `ApprovalSteps.ArrivalsAdmitted` | src/main.py:433-515 | over whole runs, every queued request came from a call that was admitted, override permission included, at that moment, and names its caller, role and controller |
| `ApprovalSteps.ApproveExactly` | src/main.py:761-835 | over whole runs, approving a pending request turns it down exactly if the caller may decide, the action lookup works and the requester may not run it any more; executes it exactly if the requester may, the action is known and its key is not cooling; otherwise - cooling included - changes nothing |
| `ApprovalSteps.RejectExactly` | src/main.py:886-914 | over whole runs, a pending request is rejected, with who did it, exactly if the caller is an approver other than the requester; otherwise nothing changes |
| `ApprovalSteps.NothingPending` | src/main.py:761-772 | approving or rejecting an id with no pending entry changes nothing |
| `ApprovalSteps.ReturnExactly` | src/main.py:835-848 | over whole runs, when an approved execution returns, its entry, if still queued, gets the success it had and nothing else, or is rejected when there was nothing to run |
| `ApprovalSteps.DirectReturnExactly` | src/main.py:537-549 | a direct execution that returns does not touch the queue, and nothing returns that is not in flight |
| `ApprovalSteps.AuditExactly` | src/main.py:849-865 | a returned execution gets one audit entry, and nothing else changes |
| `ApprovalSteps.AbortExactly` | src/main.py:773-835 | a handler that raises ends its execution without an audit entry |
| `ApprovalSteps.RestartExactly` | src/main.py:215-228 | a restart leaves what the disk has, and no execution in flight gets an audit entry |
| `ApprovalOutcome.StepRefines` | src/main.py:752-932 | every step but a restart is one step of a machine that only knows who waits, in which order, who was claimed and who was turned down; only waiting requests are decided |
| `ApprovalOutcome.AtMostOnce` | src/main.py:824-835 | under every interleaving of requests, claims, returns, prunings and restarts, whatever saves fail, no approval id reaches execution twice if no restart finds a claimed request pending on disk |
| `ApprovalOutcome.RestartRepeatsNoneIff` | src/main.py:215-267 | the exact condition: after a restart no continuation executes an id twice if and only if the disk had no claimed request pending |
| `ApprovalOutcome.RejectedNeverExecutes` | src/main.py:886-914 | an id rejected by an approver, or revoked, is never executed if no restart finds a settled request pending on disk |
| `ApprovalOutcome.RestartRevivesNoneIff` | src/main.py:886-914 | the exact condition: after a restart no continuation executes a turned-down id, or turns down an executed one, if and only if the disk had no settled request pending |
| `ApprovalOutcome.NoRequestLost` | src/main.py:187-191 | if every restart finds on disk the requests pending that wait, whatever other saves fail, the pending entries of the queue are exactly the unsettled requests, unchanged and in the order they were queued; claimed and turned-down ids are disjoint |
| `ApprovalOutcome.RestartLosesNoneIff` | src/main.py:215-259 | the exact condition: after a restart no continuation loses or reorders a request if and only if the disk had the very requests pending that wait |
| `ApprovalOutcome.FailedSubmitSave` | src/main.py:254-259 | a run, for any request, whose failed save and restart lose the request |
| `ApprovalOutcome.FailedClaimSave` | src/main.py:254-259 | a run whose failed save leaves a claimed request pending on disk, for any request and approver |
| `ServerRuns.CoreIsProtocolRun` | src/main.py:433-562 | with computed gates, a run of the server is a run of the protocol, so all its results hold for it; what each request then does is `ServerSteps.CallExactly` and `ServerSteps.ApprovalExactly` |
| `ServerRuns.CallerWithinLimit` | src/main.py:433-443 | the direct executions that a process started for one caller are at most the highest limit the caller had, in any window, shortened by the skew of the clock readings; the limit may change with the caller's role |
| `ServerRuns.ActionWithinLimit` | src/main.py:451-462 | likewise for the direct executions of one action, whoever called |
| `ServerRuns.AdmitsIffRoom` | src/main.py:433-462 | a limiter gate is open exactly if fewer calls than its limit were allowed in the window before, over the whole run and whatever earlier limits were |
| `ServerRuns.CoolingIffRecent` | src/main.py:522-536 | the cooldown gate is closed exactly if an execution with the key was recorded less than the cooldown before, over the whole run with restarts |
| `ServerRuns.ExecutionsSpaced` | src/main.py:806-845 | two real executions with one cooldown key, direct or approved, in any interleaving and across restarts, are the second one's cooldown apart if the first was recorded before the second was checked |
| `ServerSteps.KeyOfCall` | src/main.py:275-292 | the cooldown key on both routes: action, controller (None when there is none) and the text of the configured parameter, taken from the request or else from the action's defaults |
| `ServerSteps.CallExactly` | src/main.py:433-548 | a webhook call against the history: it is queued or executed exactly if the caller is entitled to it and fewer calls than the limits were allowed in the minute before for its caller and its action; executed only if it is dry or no execution with its key was recorded less than the cooldown before |
| `ServerSteps.CheckedExactly` | src/main.py:433-462 | what the limiter counts: every call under its caller, a call under its action only if the caller had room and the action exists, nothing from before a restart |
| `ServerSteps.ApprovalExactly` | src/main.py:761-835 | approving a pending request executes it exactly if the caller may decide, the requester may still run it, the action is known and no execution with its key was recorded less than the cooldown before; while it cools nothing changes |
| `ServerSteps.ReturnRecords` | src/main.py:537-548 | a returned execution is recorded for the cooldown, under the key of its start, exactly if something was run, it was no dry run and its action has a cooldown |
| `ApprovalService.ApprovalService.constructor` | src/main.py:215-228 | loads what is on disk |
| `ApprovalService.ApprovalService.ProcessedPositions` | src/main.py:237-239 | exactly the positions of the processed entries, ascending |
| `ApprovalService.ApprovalService.Prune` | src/main.py:231-243 | the in-place slice assignment leaves the pruned queue |
| `ApprovalService.ApprovalService.Save` | src/main.py:246-259 | prunes, then the disk has the queue, or keeps its old state if writing fails |
| `ApprovalService.ApprovalService.FindEntry` | src/main.py:262-267 | the entry object at the found position, or null |
| `ApprovalService.ApprovalService.Enqueue` | src/main.py:501-521 | appends a pending entry, prunes and saves |
| `ApprovalService.ApprovalService.SetFields` | src/main.py:827-829 | overwriting an entry changes the queue at its position, and nothing in the queue if it was pruned |
| `ApprovalService.ApprovalService.Claim` | src/main.py:761-830 | the step by step claim does what `ApprovalQueue.DecideApprove` decides, each refusal in the code's order, the revocation, and the claim with its save; when that is which, on the inputs alone, is `ApprovalSteps.ApproveExactly` |
| `ApprovalService.ApprovalService.Finish` | src/main.py:836-848 | the outcome is recorded in the entry held since the claim, in the queue or not |
| `ApprovalService.ApprovalService.Reject` | src/main.py:886-914 | each refusal of reject, and the rejection with its save |
| `RateLimiter.RateLimiter.Check` | src/ratelimit.py:68-90 | trims, refuses or records under one key and changes no other key |
| `RateLimiter.QueueIsWindowOfHistory` | src/ratelimit.py:82-89 | after any run with an ordered clock, the trimmed queue is the full history of allowed calls cut to the window |
| `RateLimiter.CallsAreWindowOfHistory` | src/ratelimit.py:82-89 | with a limit per call, the trimmed queue is the full history of allowed calls cut to the window |
| `RateLimiter.WindowBound` | src/ratelimit.py:71-78 | with readings in lock order, no interval (t - w, t] holds more than `limit` allowed calls |
| `RateLimiter.SkewBound` | src/ratelimit.py:80-90 | under a fixed limit, readings that run ahead by at most d shorten the guarded window by d |
| `RateLimiter.SkewBoundCalls` | src/ratelimit.py:68-90 | with a limit per call and readings that run ahead by at most d, no window less d holds more allowed calls than the highest limit |
| `RateLimiter.SkewBoundIff` | src/ratelimit.py:80-90 | the exact bound: over all runs with skew at most d, windows of a length hold at most `limit` allowed calls if and only if the length is at most the window less d, and under a limit of one if and only if it is at most the window |
| `RateLimiter.RefusedIffWindowFull` | src/ratelimit.py:86-88 | a call is refused exactly if the window that ends with it already holds `limit` allowed calls |
| `RateLimiter.AdmittedIffRoom` | src/ratelimit.py:82-89 | with a limit per call, a check is admitted exactly if fewer calls than its limit were allowed in the window that ends with it |
| `RateLimiter.RetryAfterIsExact` | src/ratelimit.py:86-88 | with no call allowed in between, a refused caller is admitted later exactly when the oldest call has left the window: the reported wait is enough, and above its minimum of 0.1 seconds no shorter one is |
| `RateLimiter.QueueWithinLimit` | src/ratelimit.py:86-89 | a queue never outgrows its limit, whatever the clock does |
| `RateLimiter.KeysAreIndependent` | src/ratelimit.py:82 | each key's queue is that of a run of its own calls alone |
| `Cooldown.KeysAgreeIff` | src/cooldown.py:38-42 | for any names, two keys are equal exactly if one target's head begins the other's and the deduplication texts make up the difference |
| `Cooldown.TargetsCanMeetIff` | src/cooldown.py:38-42 | two targets can get one key exactly if one head begins the other |
| `Cooldown.PlainNamesDoNotMeet` | src/cooldown.py:38-42 | names without the separator keep different targets apart |
| `Cooldown.KeyExactly` | src/main.py:275-292 | a key is the action, the controller and the text of the configured parameter, if the call has it and it is not null |
| `Cooldown.OtherParametersDoNotMatter` | src/main.py:285-292 | calls of one action on one controller share a key exactly if the texts of the configured parameter agree, a missing or null one counting as empty; other parameters do not matter |
| `Cooldown.CooldownTracker.constructor` | src/cooldown.py:44-58 | loads what is on disk |
| `Cooldown.CooldownTracker.Prune` | src/cooldown.py:60-65 | drops exactly the records older than the retention |
| `Cooldown.CooldownTracker.Record` | src/cooldown.py:67-104 | records, prunes, and the disk has the same records |
| `Cooldown.CooldownTracker.SecondsRemaining` | src/cooldown.py:82-98 | answers exactly if a cooldown applies, the key was recorded and the cooldown has not elapsed, and then the time from now until it has |
| `Cooldown.RunForgetsOnlyOld` | src/cooldown.py:10-15 | after any run with restarts, what was forgotten is older than 24 hours, the rest is as recorded |
| `Cooldown.ForgettingIsInvisible` | src/cooldown.py:60-98 | every query with a cooldown of at most 24 hours is answered as if nothing had been forgotten |
| `Cooldown.InvisibleIffWithinRetention` | src/cooldown.py:10-15 | this holds for all runs exactly when the cooldown is at most 24 hours |
| `Cooldown.CooldownSpacing` | src/main.py:524-548 | an execution is checked at least its cooldown after every record of its key made before that check, by whichever route, whatever overlaps and across restarts |
| `Cooldown.AttemptRunsIff` | src/main.py:524-548 | after any run with overlapping handlers and restarts, an attempt under a cooldown of at most 24 hours executes exactly if no execution with its key was recorded less than the cooldown before |
| `Cooldown.UnrecordedRunsAgain` | src/main.py:537-548 | for any key and cooldown, a run in which the process dies between execution and record, and one in which two handlers overlap, that execute twice at once |
| `Cooldown.DryRunsLeaveNoTrace` | src/main.py:522-545 | a run and the run without its dry runs end in the same state |
| `ShellQuoting.LexQuoted` | src/executor.py:180-191 | outside quotes, the shell reads a quoted text as exactly itself, for any text |
| `ShellQuoting.QuoteWorksIffPlain` | src/executor.py:180-181 | quoting yields the value for all values exactly outside quotes and after no backslash |
| `ShellQuoting.ScriptRoundTrip` | src/executor.py:189-192 | the shell splits the script line into the path and the parameter values, whatever they contain |
| `ShellQuoting.PlaybookRoundTrip` | src/executor.py:182-188 | the shell splits the playbook line into the command, the path and the parameters as one JSON word |
| `ShellQuoting.RenderExactly` | src/executor.py:180-181 | for parameters that are the items of a dictionary: a template can be filled in exactly if each placeholder's name is a key; then its texts stay and each placeholder becomes the quoted value under its name |
| `ShellQuoting.BuiltExactly` | src/executor.py:179-193 | a command comes before a playbook and a playbook before a script; a parameter is reported missing exactly if a placeholder of the command has none, and there is nothing to run exactly if none of the three is defined |
| `ShellQuoting.CommandRoundTrip` | src/executor.py:179-181 | with placeholders outside quotes and a parameter for each, a line is built, and the shell sees the template's words and operators with, in each place, the value that the dictionary of parameters has under that name, character by character |
| `ShellQuoting.CommandRoundTripIff` | src/executor.py:179-181 | the condition is exact: up to every point of the template each value is read as it is, for all values, if and only if no placeholder stands inside quotes or after a backslash |
| `ShellQuoting.QuotedPlaceholderSplits` | src/executor.py:180-181 | a template with a placeholder inside quotes whose value becomes two words |
| `SecretFiles.BalanceWhenUnlinkWorks` | src/executor.py:355-372 | when every unlink succeeds, leaving only stuck files means leaving the files exactly as they were |
| `SecretFiles.Executor.ResolveSecretFile` | src/executor.py:195-224 | a path as it is, or a new temp file that holds exactly the secret; on failure nothing is left; it succeeds exactly if Vault answers and the file can be made |
| `SecretFiles.Executor.BuildKubeConfiguration` | src/executor.py:360-432 | succeeds exactly if the first kind of credentials the controller has resolves and loads; then the new files are exactly within the clean-up list and the configuration uses the right secrets, else everything is cleaned up |
| `SecretFiles.Executor.BuildTokenConfiguration` | src/executor.py:395-420 | the same for token and CA certificate, where the second may fail after the first |
| `SecretFiles.Executor.RunKubeAction` | src/executor.py:475-548 | the files afterwards are those before, whatever happens; the client is called exactly when it can be, with the right configuration; a dry run touches nothing; it raises exactly over a template that format rejects |
| `SecretFiles.Executor.RunRemote` | src/executor.py:232-350 | the same for a remote run, whose key file is usable while ssh runs; exactly which outcomes are success and which faults propagate |

## Left out

- The internals of JSON, SHA-256, `subprocess`, SSH, the Kubernetes client and Vault: parameters with the few facts stated above.
- NaN, infinities and negative zero: JSON numbers are integers and the finite numbers of double precision. Integers beyond the digit limit of Python's conversions, and nesting beyond its recursion limit, for which its JSON functions raise.
- Files with text outside ASCII in the audit log, for which byte sizes and character counts differ.
- Two server processes writing one audit log, and a write that stops half-way: an append is one step under its lock.
- Failing renames, removals and listings in the audit folder: the model's succeed. Saves of the queue and unlinks of secret files may fail; saves of cooldown records succeed.
- AuditAppend.AppendAcceptedIff: for files that are empty or end in a newline, which append itself maintains; after an unfinished last line the code glues the next entry to it.
- TamperEvidence.EditDetected: says nothing about an entry that no later one continues: the last of a file, or the last before a new segment; nothing refers to its hash.
- RateLimiter.SkewBoundIff: exact for a fixed limit; for limits that change, `SkewBoundCalls` has the bound only.
- ServerRuns.CallerWithinLimit: counts the executions of one process, as the limiter forgets its queues when the process ends, and for a caller who always has a limit.
- ServerSteps.CallExactly: for clock readings taken in order and cooldowns of at most 24 hours; for readings out of order there is the bound `ServerRuns.CallerWithinLimit`.
- ServerSteps.ApprovalExactly: likewise for a cooldown of at most 24 hours, checked after the last record.
- Cooldown.CooldownSpacing: for cooldowns of at most 24 hours and executions that were recorded; the code gives no more.
- ApprovalOutcome.AtMostOnce: for ids that never repeat.
- ShellQuoting.ScriptRoundTrip: stops at words; reserved words, assignments in front of a command and the meaning of the command are not modelled.
- ShellQuoting.CommandRoundTrip: takes a template already split at its placeholders; Python's format specifications, conversions and positional fields are not modelled. Of the shell's syntax it has words and operators, redirections included; from an expansion, pattern, comment, here-document, or a number directly before a redirection on it says nothing, which leaves the values before that point to `CommandRoundTripIff`.
- ChainVerifier.VerifyChain: its `detail` is the kind of fault, not the wording.
- The entries that rate-limit, cooldown and rejection refusals write to the audit log, and notifications.
- Shipping to syslog and HTTP, the ECS mapping, and the audit query: best effort or field by field.
- Reading YAML configuration and role lists: the policy of each step is a parameter that may change between steps.
- Local playbooks, scripts and commands, the verbs of a Kubernetes action, and the routing of execute_action.
- Web routing, middleware, response bodies and exception handlers: only accepting or refusing is kept.
