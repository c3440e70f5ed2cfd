# ScoutTrace in Dafny

ScoutTrace sits between an MCP host and its servers: it forwards JSON-RPC traffic, captures what
passes, bills model turns from transcripts, and ships the resulting events through a durable
on-disk queue. This project models the parts of it whose correctness is not local to one
function, and proves what they promise.

- **Queue and dispatcher.** A record's state is the directory its file lies in; every transition
  writes the destination file and then removes the source. `QueueFiles` describes each operation
  as a function of the directory contents and of which file-system calls succeed (`Io`). One
  function thereby covers the clean run, every I/O failure and every crash point: a crash is an
  operation whose remaining calls fail, followed by a restart. `DurableQueue` is the queue object,
  `Dispatch` the drain loop, `QueueRecovery` what each crash point leaves, `EventSafety` a state
  machine over whole runs of both; `RoundSteps` shows that the drain loop takes its steps,
  `SendBudget` bounds how often an event is sent, recoveries included, `DeadLetters` says why an
  event is given up, and `QueueIntake` that what was enqueued is what is handed out.
- **Framing.** `Framing` defines the split of a byte stream at newlines and shows it is the only
  one. `Tee` (bytes first, frames afterwards) and `Gate` (frame by frame) both refine it;
  `HaltGate` adds the halt decision.
- **Transcript scans.** `ClaudeScan` and `CodexScan` resume from stored cursors over growing files
  (`LineScan`); `ClaudeCuts` says exactly when the invocations bill what one scan bills, and
  `ClaudeForgets` gives histories for which they do not. `ClaudeTurns` and `CodexPairs` name the
  lines that are reported, field by field. `Billing` splits and prices the token deltas in exact
  arithmetic.
- **Host configuration.** `JsonPatch`, `TomlPatch` and `YamlPatch` wrap and unwrap server entries
  (`HostServers` says which and how). `LineSplice` is the editing of lines by position, for any
  kinds of lines; `YamlServers` says what the edits of a YAML file mean, `YamlRestore` what a server
  loads as after them, and `YamlText` what a file does, joined to text and split again.
  `TomlFiles` and `YamlFiles` say how files are written by hand and that they load as what they say;
  `ProxyStart` reads the command line of the proxy and shows that patched files of every format run
  what they ran before. `DropPath` removes glob paths from JSON trees.
- **YAML subset.** `YamlQuotes`, `YamlSubset` and `YamlParser` are the recursive-descent parser;
  `YamlLayout` says how documents are written, `YamlRoundTrip` and `YamlDocument` that they are
  read back.
- **Arithmetic.** `Backoff` (wrapping 64-bit shifts) and `Ulid` (base-32 order embedding and the
  monotonic generator).

Code that updates state in place is a class or a loop, and is proved against a function of its
inputs or of the old state; the properties are lemmas about those functions.

## What the proofs bring to light

Where the code does not meet its documentation, the model follows the code, gives the failing
case, and states exactly when the promise holds.

- A listing reads 4096 bytes of each file and skips records whose header does not end within
  them. `Open` empties the inflight directory if and only if every inflight header fits
  (`OpenEmptiesInflight`); a rescheduled record is claimed again only if its error text left the
  header short enough (`RetriedIsListedExactlyWhen`), and a record whose header is one byte below
  the window is lost to the queue as soon as it is claimed (`ClaimedTooLong`).
- A crash between the two file operations of `MarkDead` leaves the event both pending and dead
  after recovery (`CrashInMarkDead`), although docs/TECHNICAL_DESIGN.md:1772 asks for no duplicates
  after a kill. Without such a crash there is one copy (`CleanRunsKeepOneCopy`).
- The retry curve can dip when `InitialMS * MaxMS` does not fit 63 bits (`DelayDips`); the delay
  is exact for the counts named by `DelayIsExactWhen`.
- The gated forwarder refuses frames of exactly the maximum length, which the tee accepts, and
  stops at an unterminated tail (`TransparentExactlyWhen`).
- A stored Claude cursor with a negative baseline is taken for damaged when it is read, and the
  whole file is billed again: one line with a negative token count and two invocations bill it
  twice (`NegativeCountBilledTwice`). `ClaudeCuts.HistoryExactlyWhen` gives the exact condition for
  a history of invocations to bill what one scan bills.
- With more than 1024 message keys a resumed scan can bill a turn twice: after 1025 messages the
  first one, written again, is billed again (`TurnBilledTwice`). `ClaudeCuts.ResumeExactlyWhen`
  covers both.
- Writing a Codex cursor encodes the raw arguments of the waiting calls again, which drops white
  space and escapes some characters: the pair reported after a stop between call and output can
  have other arguments than a single scan reports (`CutBetweenCallAndOutput`);
  `CodexScan.ResumingEqualsScanningOnce` says when it has not.
- The comment at internal/cli/claude_hook_cmd.go:495-496 holds only for models without a
  cache-read rate of their own, or turns without apportioned cache reads
  (`SplitKeepsPriceExactlyWhen`); otherwise the split is cheaper (`CacheReadsCostLess`).
- JSON unpatch restores an entry exactly when its command was a string, its arguments an array,
  and it had no marker field (`EntryRoundTripExactlyWhen`); an entry without arguments comes back
  with an empty list of them (`MissingArgsAppear`).
- TOML unpatch restores the loaded servers of every file whose selected sections have both
  settings. Other keys can be lost on the way: a line `command_timeout = 5` after the command is
  taken for the command's line and overwritten for good, and the section then holds two command
  lines (`LongerKeyIsSetting`, `OtherKeyIsLost`, `TimeoutIsLost`). The round trip changes nothing
  but command and args lines exactly when the last line taken for each setting of a selected section
  is read as that setting (`ChangesOnlySettingsExactlyWhen`).
- The lines a YAML patch writes for the arguments take the ending of the args line. When that line
  ends the file without a newline, they run together: the server loads without arguments, is not
  taken for wrapped, and the next patch records the proxy as its original command
  (`UnendedIsPatchedAgain`). `PatchedLoadsExactlyWhen` and `KeptPatchAgainExactlyWhen` say exactly
  when a patch is read back and is idempotent; `WrittenLoadsExactlyWhen` and `PatchAgainExactlyWhen`
  say it for every text a patch accepts.
- In a YAML file a list of arguments ends only at a line that ends in a colon; a command line in
  that stretch, or at its end, is deleted by the patch or the unpatch (`CommandUnderArguments`), and
  arguments listed above the last args line stay and are added to those written
  (`FirstListStays`). `ServerRoundTripExactlyWhen` decides for every server, with any number of
  command and args lines, whether it gets back what it loaded as, and `UnpatchRestoresExactlyWhen`
  for every file.
- ULIDs increase exactly when the clock does not step back and the millisecond's counter is not
  exhausted (`NextSortsAfterExactlyWhen`, `ClockStepsBack`).
- The YAML subset ignores, without an error, everything from the first line that leaves the block
  of the first line (`ReadsToTheEndExactlyWhen`), and stray lines under a compact list element
  (`CompactReadsAllExactlyWhen`); a list element with a colon outside quotes, be it a URL or a flow
  mapping, is read as a block mapping (`ElementReadsExactly`, `FlowElementIsSplit`). One unquoted
  `inf` or `nan` makes the whole file an error (`InfinityIsRefused`).

## Model

| member | source | states |
|---|---|---|
| `EventSafety.NoEventLost` | internal/queue/queue.go:126-303 | in every run with failures and crashes anywhere, an enqueued event has been accepted by a destination with its very bytes, or Prune removed its last file, or it lies in some lane; every file with its id unzips to the bytes enqueued |
| `EventSafety.StepKeepsInv` | internal/dispatch/dispatcher.go:110-152 | every step of queue or dispatcher, cut off at any file-system call, keeps the accounting of events and never rewrites what was enqueued |
| `EventSafety.RunKeepsInv` | internal/queue/queue.go:187-259 | the accounting holds at every point of every run |
| `EventSafety.CleanRunsKeepOneCopy` | internal/queue/queue.go:474-480 | as long as no file-system call fails, restarts included, an id is in one lane only |
| `SendBudget.StepKeeps` | internal/dispatch/dispatcher.go:110-152 | every step, whichever of its calls fail, keeps the accounting of one event: a pending record has an attempt booked for each send, one in flight for each but one, and each recovery that found the event undid at most one |
| `SendBudget.SendsAndRecoveries` | internal/dispatch/dispatcher.go:126-150 | in every run, crashes and restarts included, an event is sent at most max(1, MaxRetries) times and once more for each recovery that finds it in flight |
| `SendBudget.SendsBounded` | internal/dispatch/dispatcher.go:126-150 | so at most max(1, MaxRetries) times, whichever calls fail and over any number of drains, as long as nothing recovers inflight |
| `DeadLetters.StepDeserves` | internal/dispatch/dispatcher.go:126-150 | every step, whichever of its calls fail, keeps the account of why an event may be dead: at most as many attempts are booked as sends were made |
| `DeadLetters.DeadOnlyWhen` | internal/dispatch/dispatcher.go:126-150 | in every run, crashes included, an event is in the dead lane only if an answer to a batch that held it was not retriable, or it has been sent at least max(1, MaxRetries) times |
| `EventSafety.PruneShrinks` | internal/queue/queue.go:288-304 | Prune removes only dead and overflow records older than the cutoff and changes no other |
| `QueueFiles.TransferConserves` | internal/queue/queue.go:474-480 | read-relabel-move makes no id vanish or appear and keeps payload bytes, wherever it stops |
| `QueueFiles.TransferAllEffect` | internal/queue/queue.go:205-222 | file by file, what a batch of moves did: reported ids went across relabelled, unreported ones are as they were, nothing else changed |
| `QueueFiles.TransferAllOrigin` | internal/queue/queue.go:474-480 | wherever a batch of moves stops, a file in the destination lane was there before or is the relabelled source file |
| `QueueFiles.TransferAllOk` | internal/queue/queue.go:350-367 | without a failure every listed id is moved |
| `QueueRecovery.RecoveryEffect` | internal/queue/queue.go:350-367 | a recovery moves each listed inflight record to pending and touches nothing else |
| `QueueRecovery.OpenEmptiesInflight` | internal/queue/queue.go:444-472 | inflight is empty after a recovery if and only if every inflight header fits the window a listing reads |
| `QueueRecovery.RecoveryIdempotent` | internal/queue/queue.go:350-367 | a second recovery changes nothing |
| `QueueRecovery.CrashInClaimOf` | internal/queue/queue.go:187-223 | a crash anywhere inside ClaimPending followed by Open gives back every record that was not in flight as it was before the claim, whatever else is in flight, as long as its header still fits the listing window when it says "inflight" |
| `QueueRecovery.ClaimedTooLong` | internal/queue/queue.go:444-472 | a record whose header does not is in flight for good once it has been claimed |
| `QueueRecovery.CrashInClaimUndone` | internal/queue/queue.go:187-223 | in particular, with nothing in flight before and all such headers fitting, the whole disk is as it was |
| `QueueRecovery.CrashInClaimBeside` | internal/queue/queue.go:350-367 | a record in flight that is not being claimed is recovered as if there had been no claim |
| `QueueRecovery.RetriedIsListedExactlyWhen` | internal/queue/queue.go:444-472 | a rescheduled record is listed again exactly when its new header fits the window |
| `QueueRecovery.CrashInRetry` | internal/queue/queue.go:234-246 | a crash inside Retry leaves the record pending, with the attempt booked exactly when the source was removed, whatever else is in flight |
| `QueueRecovery.CrashInMarkDead` | internal/queue/queue.go:249-259 | after a crash inside MarkDead the event is dead, pending, or both, and which of these exactly |
| `QueueRecovery.EvictionFrees` | internal/queue/queue.go:497-515 | the bytes on disk fall by at least the payload bytes the eviction counts |
| `QueueRecovery.EvictionMakesRoom` | internal/queue/queue.go:483-534 | oldest-first eviction makes room or leaves nothing listable pending, and one eviction fewer would not have counted as enough |
| `QueueRecovery.EvictionTakesOldest` | internal/queue/queue.go:497-515 | every evicted record is at least as old as every one kept, and is in overflow unchanged but for its status |
| `QueueRecovery.EnqueueEvicts` | internal/queue/queue.go:483-516 | Enqueue evicts nothing while the event fits; otherwise records until it does or none that can be listed is left, and not one more than the payload counted calls for |
| `DurableQueue.Queue.Open` | internal/queue/queue.go:87-117 | opening fills in defaults and recovers inflight; it fails exactly when the directory is missing from the options or a call fails |
| `DurableQueue.Queue.ListDir` | internal/queue/queue.go:322-348 | a listing holds exactly the readable, visible records of the destination, once each |
| `DurableQueue.Queue.MoveRecord` | internal/queue/queue.go:474-480 | destination written, then source removed |
| `DurableQueue.Queue.RecoverInflight` | internal/queue/queue.go:350-367 | the disk after recovery from the listing it made, and how many records were moved |
| `DurableQueue.Queue.ClaimPending` | internal/queue/queue.go:187-223 | claims the due records of the destination, earliest first, up to the limit, and returns those that moved with payloads unzipped |
| `DurableQueue.Queue.Ack` | internal/queue/queue.go:226-231 | removes the inflight file, and says whether it did |
| `DurableQueue.Queue.Retry` | internal/queue/queue.go:234-246 | books the attempt and moves the record back to pending |
| `DurableQueue.Queue.MarkDead` | internal/queue/queue.go:249-259 | moves the record to dead with the error |
| `DurableQueue.Queue.Prune` | internal/queue/queue.go:288-304 | removes expired dead and overflow records, dead first |
| `DurableQueue.Queue.Measure` | internal/queue/queue.go:519-534 | the size of the three bounded lanes, or nothing when one cannot be read |
| `DurableQueue.Queue.EvictIfFull` | internal/queue/queue.go:483-516 | refuses or evicts as the drop policy says, evicting an age-ordered prefix that stops where enough payload is counted |
| `DurableQueue.Queue.Enqueue` | internal/queue/queue.go:126-157 | size check, eviction, write of a fresh pending record with the given id, destination, times and zipped event; the errors and the disk in every case |
| `QueueIntake.ClaimHandsOut` | internal/queue/queue.go:187-223 | what a claim hands out is a due record of its destination that it could see, unchanged but for its status and unzipped, once each and no more than the limit |
| `QueueIntake.EarliestFirst` | internal/queue/queue.go:187-223 | the earliest due come first, and nothing due before them is left behind |
| `QueueIntake.EnqueueThenClaim` | internal/queue/queue.go:126-223 | from any disk, an event that Enqueue took is handed out once, with its destination, times and bytes and no attempt booked, by every claim for its destination that sees its header, has room and moves it once its time has come; and never before, nor to another destination |
| `QueueIntake.FileCounts` | internal/queue/queue.go:519-534 | a pending, inflight or dead file counts toward the limit with its header, the newline and its payload, an overflowed one not at all |
| `QueueIntake.RefusingQueueStaysWithin` | internal/queue/queue.go:126-157 | a queue that refuses when full turns away exactly the events too large or beyond the limit, stores every other beside what was there, and outgrows the limit by the last header at most |
| `QueueIntake.UnsetOptions` | internal/queue/queue.go:87-97 | with its options unset a queue never refuses an event for being full and takes zipped events of up to two mebibytes |
| `QueueIntake.PrunesExactly` | internal/queue/queue.go:288-304 | without a failing call Prune removes exactly the dead and overflowed records that a listing sees and that are older than the cutoff |
| `QueueIntake.FailedCallsChangeNothing` | internal/queue/queue.go:126-304 | an operation none of whose calls succeeds changes nothing |
| `Dispatch.RoundSpends` | internal/dispatch/dispatcher.go:110-152 | a round costs each claimed record one send of max(1, MaxRetries - Attempts), so the sum over the destination falls |
| `Dispatch.SettleAllEffect` | internal/dispatch/dispatcher.go:126-150 | settling a batch leaves other ids alone, puts a record back in pending only with one more attempt below the limit, and loses an id only if the destination accepted it |
| `Dispatch.SettledCleanly` | internal/dispatch/dispatcher.go:126-150 | without a failing call an accepted record leaves every lane; a retriable one with attempts left is pending with the attempt booked, the error, and due once both the wait asked for and the backoff are over; any other is dead with the error |
| `Dispatch.BatchOutcome` | internal/dispatch/dispatcher.go:126-150 | every record of a batch gets that outcome if its own settlement meets no failure, whatever fails for the others |
| `Dispatch.RoundOutcome` | internal/dispatch/dispatcher.go:111-151 | and so does every record that a round claims, counted from the pending file |
| `Dispatch.DeadAreCounted` | internal/dispatch/dispatcher.go:144-150 | the dead counter grows by the number of records that are dead afterwards |
| `Dispatch.ClaimEffect` | internal/queue/queue.go:187-223 | what a claim hands out is in flight, addressed to the destination, and nothing else left pending |
| `Dispatch.Dispatcher.Send` | internal/dispatch/dispatcher.go:119-124 | one batch of distinct records of the destination is handed over and accounted for |
| `Dispatch.Dispatcher.SettleOne` | internal/dispatch/dispatcher.go:126-150 | the record is acknowledged, rescheduled after the later of backoff and RetryAfter, or buried; without a failing call it gets the outcome above |
| `Dispatch.Dispatcher.SettleBatch` | internal/dispatch/dispatcher.go:126-150 | every record is settled in order, each from the disk the one before left |
| `Dispatch.Dispatcher.Round` | internal/dispatch/dispatcher.go:111-151 | one claim-send-settle round: disk, counters and sends |
| `Dispatch.Dispatcher.RoundAdvances` | internal/dispatch/dispatcher.go:111-151 | a round that claims something lowers the remaining budget; one that claims nothing without a failure found nothing due |
| `Dispatch.Dispatcher.RunDest` | internal/dispatch/dispatcher.go:110-152 | terminates whatever the destination answers and however the clock moves; no event vanishes unless accepted; every send comes out of its record's budget, and what is left of it remains for later drains; nothing is due after a last round without failures; the rounds it consisted of |
| `RoundSteps.RoundLeads` | internal/dispatch/dispatcher.go:111-151 | a round, whichever of its calls fail, is a claim, a send and one settlement per record of a run |
| `RoundSteps.DrainLeads` | internal/dispatch/dispatcher.go:110-152 | a whole drain is a sequence of such steps |
| `RoundSteps.DrainLosesNothing` | internal/dispatch/dispatcher.go:110-152 | an event accepted before a drain, at any point of any run, is delivered, aged out or on disk after it |
| `Backoff.DelayIsExact` | internal/dispatch/backoff.go:30-45 | for InitialMS * MaxMS below 2^63 the wrapping shift gives min(InitialMS * 2^attempts, MaxMS) for every attempt count |
| `Backoff.DelayIsExactWhen` | internal/dispatch/backoff.go:30-45 | without that bound, exactly the counts for which it does |
| `Backoff.DelayDips` | internal/dispatch/backoff.go:30-45 | a configuration for which a later attempt waits less |
| `Backoff.DelayIsMonotone` | internal/dispatch/backoff.go:30-45 | the delay never shrinks as attempts grow, under the bound |
| `Backoff.ComputeBounds` | internal/dispatch/backoff.go:38-45 | with jitter the delay lies between half the curve and the curve; no nanosecond count overflows |
| `Backoff.JitterReaches` | internal/dispatch/backoff.go:38-45 | the lower end is reached, and all but at most one millisecond of the upper; the top of an odd curve never is |
| `Framing.SplitLinesIsSplit` | internal/wire/frame.go:54-62 | the split rejoins to the stream and no segment holds a newline |
| `Framing.SplitUnique` | internal/wire/frame.go:54-62 | there is only one such split |
| `Framing.FittingPartition` | internal/wire/tee.go:74-103 | each segment is published or counted as oversize |
| `Tee.CaptureRun` | internal/wire/tee.go:74-85 | the step for bytes without a newline agrees with the split of the stream so far |
| `Tee.CaptureLine` | internal/wire/tee.go:86-103 | the step for a completed line agrees with it too |
| `Tee.Tee.Publish` | internal/wire/tee.go:116-136 | a frame is taken or counted as dropped, and the tee is not held up |
| `Tee.Tee.Walk` | internal/wire/tee.go:72-104 | accounting for a chunk leaves what the whole stream so far demands, and publishes only bytes already written |
| `Tee.Tee.Run` | internal/wire/tee.go:55-112 | the destination gets exactly the bytes read; frames and oversize count depend on the bytes alone, not on the reads; each frame is forwarded before it is published |
| `Gate.SplitFront` | internal/wire/frame.go:54-62 | taking a frame off the front takes the first segment off the split |
| `Gate.ScanStops` | internal/wire/frame.go:65-82 | where the scanner stops, its verdict is the one the split demands |
| `Gate.GatedForwarder.Handle` | internal/wire/gate.go:81-123 | a frame goes upstream or is answered and refused, and is offered to capture, as decided; a failed write ends the run |
| `Gate.GatedForwarder.Run` | internal/wire/gate.go:72-129 | the scanned frames are sorted in order over upstream, host and capture; the run ends with the scanner's verdict or the first failed write |
| `HaltGate.UpstreamSplits` | internal/wire/gate.go:131-138 | upstream can split what it got into exactly the forwarded frames |
| `HaltGate.AllowingGate` | internal/wire/gate.go:81-93 | a gate that allows everything behaves like none |
| `HaltGate.TransparentExactlyWhen` | internal/wire/gate.go:72-129 | forwarding by frames delivers the stream unchanged, as the tee does, exactly when it ends in a newline and all frames are below the limit |
| `HaltGate.RefusesExactly` | internal/halt/gate.go:43-67 | refused are exactly the tools/call requests made while the gate's cache says halted; the reply names the request, the cache's own reason or else the default one, and whether the halt must be cleared by hand |
| `HaltGate.UpstreamGetsExactly` | internal/wire/gate.go:72-138 | whatever the cache says from frame to frame, upstream can read back exactly the frames that are not tools/call requests made while it says halted, in order |
| `HaltGate.HostGetsExactly` | internal/wire/gate.go:93-110 | the host can split what it is sent into exactly one reply for each frame refused, in order; replies and forwarded frames account for all frames |
| `HaltGate.AllAreCaptured` | internal/wire/gate.go:81-123 | behind the halt gate every frame is offered to capture, refused or not, and the counter counts those forwarded |
| `HaltGate.ForwardedAreNotAnswered` | internal/wire/gate.go:93-110 | a forwarded frame is not answered, whatever reply its verdict carries |
| `HaltGate.SilentGate` | internal/wire/gate.go:81-93 | a gate that gives no verdict is no gate |
| `HaltGate.HaltedPassesNoToolsCall` | internal/halt/gate.go:43-67 | in particular, when halted throughout, no frame upstream can read is a tools/call request, and all others get through in order |
| `HaltGate.LimitsAgree` | internal/wire/frame.go:14-38 | tee and forwarder take the same frame limit; unset, it is sixteen mebibytes |
| `LineScan.LinesGrow` | internal/cli/claude_hook_cmd.go:624-634 | after growth at any byte the lines are those consumed before and those of the rest |
| `ClaudeScan.AppendKeepsLast` | internal/cli/claude_hook_cmd.go:773-788 | a new key goes to the end and old ones fall off the front only beyond 1024; a key that is there changes nothing; a list without repeats stays one |
| `ClaudeScan.TakeLine` | internal/cli/claude_hook_cmd.go:634-692 | one complete line: ignored, recognised as a repeat, or billed with the line's own model and counts |
| `ClaudeScan.ReadNewAssistantUsageLines` | internal/cli/claude_hook_cmd.go:590-697 | turns and cursor of a scan from the stored cursor, or from the start when the file shrank |
| `ClaudeScan.ResumeOnce` | internal/cli/claude_hook_cmd.go:590-697 | one resumed scan, from a baseline that is not negative, continues where the first stopped, growth ending mid-line included |
| `ClaudeScan.ResumingEqualsScanningOnce` | internal/cli/claude_hook_cmd.go:482-484 | over any append-only history with token counts that are not negative and at most 1024 keys in play, the turns of all invocations are those of one scan of the final file, and so is the cursor |
| `ClaudeCuts.ResumeExactlyWhen` | internal/cli/claude_hook_cmd.go:805-829 | with any counts and any number of keys, an invocation on a file and one on its grown version never bill less than one scan, and bill the same exactly when the baseline the first stops with is not negative and no line left repeats a key that was billed and not stored |
| `ClaudeCuts.HistoryExactlyWhen` | internal/cli/claude_hook_cmd.go:482-484 | the same for every append-only history: the invocations bill exactly the turns of one scan if and only if every stop is harmless |
| `ClaudeCuts.TurnsCounted` | internal/cli/claude_hook_cmd.go:656-666 | a scan bills one turn for each key that is new and one for each line without a key |
| `ClaudeCuts.StartingOverBillsMore` | internal/cli/claude_hook_cmd.go:805-829 | a scan that starts over bills strictly more turns than one that goes on |
| `ClaudeScan.CursorResumesExactlyWhen` | internal/cli/claude_hook_cmd.go:773-788 | going on from the cursor itself bills the same exactly when no line left repeats a forgotten key |
| `ClaudeForgets.StoresLastKeys` | internal/cli/claude_hook_cmd.go:773-788 | a transcript of different keys bills every line and stores the last 1024 keys |
| `ClaudeForgets.FirstTurnBilledAgain` | internal/cli/claude_hook_cmd.go:656-666 | after more than 1024 different keys, the first message written again is billed again by the next invocation; with it everything else, when the stored baseline is negative |
| `ClaudeForgets.TurnBilledTwice` | internal/cli/claude_hook_cmd.go:656-666 | a transcript for which one scan bills 1025 turns and two invocations bill 1026 |
| `ClaudeForgets.NegativeCountBilledTwice` | internal/cli/claude_hook_cmd.go:819-829 | a line with a negative count is billed once by a scan and twice by two invocations |
| `ClaudeForgets.NegativeCountOccurs` | internal/cli/claude_hook_cmd.go:749-761 | such a line: five input tokens less than none |
| `ClaudeScan.ForgettingBillsMore` | internal/cli/claude_hook_cmd.go:656-666 | forgotten keys never bill less, and bill more when one comes up again |
| `ClaudeScan.DeltasTelescope` | internal/cli/claude_hook_cmd.go:667-684 | the deltas sum to final minus starting baseline plus what resets gave up |
| `ClaudeScan.DeltasBounded` | internal/cli/claude_hook_cmd.go:667-684 | each delta lies between zero and its turn's effective input |
| `ClaudeScan.RepeatIsFree` | internal/cli/claude_hook_cmd.go:656-666 | a line repeating an earlier key changes nothing |
| `ClaudeScan.ShrunkStartsOver` | internal/cli/claude_hook_cmd.go:601-612 | a file shorter than the cursor is scanned as if there were no cursor |
| `ClaudeScan.NothingNewStoresNothing` | internal/cli/claude_hook_cmd.go:482-484 | an invocation that finds no complete line reports nothing and leaves the cursor alone |
| `ClaudeTurns.KeysTellMessages` | internal/cli/claude_hook_cmd.go:763-771 | two lines have the same key exactly when they are of one message, by its id or else that of its request |
| `ClaudeTurns.TurnsAreBilledLines` | internal/cli/claude_hook_cmd.go:634-692 | the turns of a scan are those of its billed lines, in order: every usage line that is not of a message known to the cursor or seen before; each turn has its line's model, output, input, cache creation and cache read, and is charged the growth over the turn before, or everything when the input shrank |
| `ClaudeTurns.FreshScanBills` | internal/cli/claude_hook_cmd.go:590-697 | the same for a scan of a whole file from nothing |
| `CodexScan.HandleLine` | internal/cli/codex_hook_cmd.go:549-580 | a call is remembered, an output takes its call |
| `CodexScan.PendingCallsSlice` | internal/cli/codex_hook_cmd.go:535-547 | the stored slice lists the pending calls in the order of their ids |
| `CodexScan.ReadNewSessionEvents` | internal/cli/codex_hook_cmd.go:467-533 | the events and the cursor of a scan from a stored cursor |
| `CodexScan.SliceRebuilds` | internal/cli/codex_hook_cmd.go:374-379 | loading a stored cursor gives the map it was made from, with the arguments as JSON encoding leaves them |
| `CodexScan.ResumingEqualsScanningOnce` | internal/cli/codex_hook_cmd.go:467-533 | over any append-only history the call/output pairs of all invocations are those of one scan, in order, up to the encoding of arguments; and exactly those if and only if no call that waits at a stop and is answered later has arguments that encoding changes |
| `CodexScan.EncodingUnseenExactlyWhen` | internal/cli/codex_hook_cmd.go:549-580 | encoding the waiting calls changes no later pair exactly when none of them that is answered is changed |
| `CodexScan.CutBetweenCallAndOutput` | internal/cli/codex_hook_cmd.go:786-798 | for a call whose arguments encoding changes, a history of two versions, with and without its output, whose invocations report another pair than one scan of the file |
| `CodexScan.CutOccurs` | internal/cli/codex_hook_cmd.go:786-798 | such a call and output |
| `CodexScan.OutputsConsumeCalls` | internal/cli/codex_hook_cmd.go:549-580 | for each id, events and the call still pending never exceed the calls seen |
| `CodexPairs.EventsAreAnswers` | internal/cli/codex_hook_cmd.go:549-580 | the events of a scan are those of the outputs that a call waits for, in order, each with that call and that output; a call waits until the next call or output of its id |
| `Billing.ApportionConserves` | internal/cli/claude_hook_cmd.go:530-553 | the parts sum to the delta for all inputs |
| `Billing.ApportionBounds` | internal/cli/claude_hook_cmd.go:541-552 | parts are non-negative; input and cache creation lose less than one token, cache read gains less than two |
| `Billing.ApportionBoundIsTight` | internal/cli/claude_hook_cmd.go:541-552 | for every total a turn whose cache read gains 2 - 2/total tokens, so two is the least bound |
| `Billing.SplitPricedExactlyWhen` | internal/billing/pricing.go:142-185 | the split delta has a table price exactly when the unsplit one has |
| `Billing.SplitKeepsPriceExactlyWhen` | internal/billing/pricing.go:93-103 | the two prices agree exactly when no separate cache-read rate applies to any token |
| `Billing.CacheReadsCostLess` | internal/billing/pricing.go:142-185 | when one below the input rate does, the split turn costs less |
| `Billing.LiveSplitDiffers` | internal/billing/pricing.go:142-185 | with live prices the split differs from all tokens at the input rate by what cache tokens of either kind cost more or less at a rate of their own |
| `Billing.CachedTurnCostsATenth` | internal/billing/pricing.go:142-185 | an input: a turn read from the cache at a tenth of the input rate |
| `Ulid.TextIsNumber` | internal/event/ulid.go:58-92 | the text is the 26-digit base-32 form of ms * 2^80 + random |
| `Ulid.TextOrder` | internal/event/ulid.go:58-92 | texts sort as (timestamp, random) pairs do |
| `Ulid.TextInjective` | internal/event/ulid.go:58-92 | different pairs have different texts |
| `Ulid.IncrementedIsPlusOne` | internal/event/ulid.go:40-46 | the carry loop is +1 modulo 2^80 and wraps exactly when all bytes are 255 |
| `Ulid.Generator.NewUlidAt` | internal/event/ulid.go:31-55 | state and text after a call |
| `Ulid.Generator.Increment` | internal/event/ulid.go:40-46 | the in-place carry loop on the byte array |
| `Ulid.NextSortsAfterExactlyWhen` | internal/event/ulid.go:31-55 | a new id sorts after the last exactly when the clock advanced, or stood still without exhausting the counter |
| `Ulid.RandomPartIs` | internal/event/ulid.go:31-55 | in a new millisecond the random part is what was drawn, in the same one the last plus one modulo 2^80 |
| `Ulid.RunStrictlyIncreases` | internal/event/ulid.go:31-55 | every run with such clocks yields strictly increasing texts |
| `Ulid.ClockStepsBack` | internal/event/ulid.go:31-55 | ids step back with the clock |
| `DropPath.DropAt` | internal/redact/path.go:107-174 | the recursive drop with its loops over maps and slices, and whether anything was hit |
| `DropPath.DropPath` | internal/redact/path.go:102-105 | the drop of a dotted path |
| `DropPath.DropsExactly` | internal/redact/path.go:107-174 | at every place of the tree, what is found afterwards: named keys gone with all below, named elements null, everything not under a match unchanged |
| `DropPath.DropIdempotent` | internal/redact/path.go:107-174 | dropping twice is dropping once |
| `DropPath.HitsExactlyWhen` | internal/redact/path.go:107-174 | the result flag says whether the tree had a place the path names |
| `DropPath.PathReads` | internal/redact/path.go:176-182 | segments joined by dots are read as those segments |
| `DropPath.IndexReads` | internal/redact/path.go:142-160 | an index is read in decimal, with or without a sign |
| `JsonPatch.PatchEntry` | internal/hosts/patch.go:114-146 | the wrapped entry, or an error for arguments that are not strings |
| `JsonPatch.Patch` | internal/hosts/patch.go:15-53 | the patched tree, and the error in each failing case |
| `JsonPatch.Unpatch` | internal/hosts/patch.go:55-103 | the restored tree, the servers restored, and the errors |
| `JsonPatch.EntryRoundTripExactlyWhen` | internal/hosts/patch.go:114-146 | undoing the patch of an entry gives it back exactly when its command is a string, its arguments an array and it has no marker |
| `JsonPatch.UnpatchUndoesPatchExactlyWhen` | internal/hosts/patch.go:15-103 | for any selection, unpatch undoes patch on a server table exactly when every server survives |
| `JsonPatch.UnpatchUndoesPatch` | internal/hosts/patch.go:15-103 | in particular when all entries are plain |
| `JsonPatch.PatchIdempotent` | internal/hosts/patch.go:105-112 | patching twice is patching once, for every tree it accepts; what is patched stays so when other servers are named |
| `JsonPatch.PatchInTurns` | internal/hosts/patch.go:24-46 | patching some servers and then others is patching them together |
| `JsonPatch.PatchChangesExactly` | internal/hosts/patch.go:15-53 | of a whole tree exactly the selected servers change: no key comes or goes, and everything else is as it was |
| `JsonPatch.MissingArgsAppear` | internal/hosts/patch.go:114-146 | an entry without arguments does not survive the round trip, and what it becomes |
| `JsonPatch.RestoredExactly` | internal/hosts/patch.go:65-91 | key by key, what unpatching makes of a marked entry |
| `ProxyStart.WrappedStarts` | internal/cli/proxy_cmd.go:76-93 | the proxy takes wrapped arguments for the server itself: its command with its arguments, whatever they look like, under its own name |
| `ProxyStart.ManagedExactly` | internal/hosts/patch_text_formats.go:319-321 | a server is taken for wrapped exactly when its arguments have the written form |
| `ProxyStart.PatchedEntryRuns` | internal/hosts/patch.go:114-146 | a wrapped JSON entry runs what the entry ran, and its other fields are as they were |
| `ProxyStart.PatchedTreeRuns` | internal/hosts/patch.go:15-53 | in a patched tree every named server that was not wrapped runs through the proxy as before, every other is as it was |
| `ProxyStart.PatchedTomlRuns` | internal/hosts/patch_text_formats.go:24-77 | what a patched TOML text loads runs, server for server, what the original text loads: through the proxy where it was named, had a command and was not wrapped, unchanged otherwise |
| `ProxyStart.PatchedYamlRuns` | internal/hosts/patch_text_formats.go:174-229 | so does what a patched YAML text loads, if every wrapped server reads back what was written |
| `Text.SplitYieldsLines` | internal/hosts/patch_text_formats.go:353-365 | the lines rejoin to the text and end where newlines are |
| `Text.SplitJoin` | internal/hosts/patch_text_formats.go:353-365 | joined lines split into the same lines |
| `Text.RebuiltLine` | internal/hosts/patch_text_formats.go:384-400 | a line rebuilt from prefix, text and ending has that prefix, text and ending |
| `Text.EndingsAre` | internal/hosts/patch_text_formats.go:384-392 | the three endings a line can have |
| `Text.BlanksAreNoPrefix` | internal/hosts/patch_text_formats.go:394-400 | a line of blanks alone has no prefix |
| `HostServers.ListGrows` | internal/hosts/patch_text_formats.go:407-413 | a list is written as its quoted strings between brackets, with a comma and a blank between them |
| `TomlPatch.LoadServers` | internal/hosts/patch_text_formats.go:120-167 | the servers read line by line, or the first error |
| `TomlFiles.FileReads` | internal/hosts/patch_text_formats.go:120-167 | a file written line by line, with blanks, comments, other tables and other settings, loads as what its lines say |
| `TomlPatch.WritesOnlySettings` | internal/hosts/patch_text_formats.go:47-68 | a patch or unpatch writes over nothing but the last line of either word, with an equals sign, in the section of a server it writes |
| `TomlPatch.Patch` | internal/hosts/patch_text_formats.go:24-77 | succeeds exactly when the file loads and every selected section has both settings; the rewritten lines and the recorded originals, or which setting of which server is missing (what the written arguments start is `ProxyStart.PatchedTomlRuns`) |
| `TomlPatch.Unpatch` | internal/hosts/patch_text_formats.go:79-118 | every section with a marker gets its recorded settings back; which servers were restored |
| `TomlPatch.FindSettings` | internal/hosts/patch_text_formats.go:47-56 | the last command and args lines of a section |
| `TomlPatch.NextTomlSection` | internal/hosts/patch_text_formats.go:375-382 | the end of a section |
| `TomlPatch.RewriteTwice` | internal/hosts/patch_text_formats.go:66-68 | writing settings over written settings is as if the first writing had not been |
| `TomlPatch.RewrittenLoads` | internal/hosts/patch_text_formats.go:120-167 | a rewritten file loads as the original with the written servers in place of the old |
| `TomlPatch.PatchWrapsServers` | internal/hosts/patch_text_formats.go:24-77 | a patched file loads with the selected servers wrapped and all others as they were |
| `TomlPatch.UnpatchRestoresServers` | internal/hosts/patch_text_formats.go:79-118 | unpatching a patched file loads the servers of the original |
| `TomlPatch.TextRoundTrip` | internal/hosts/patch_text_formats.go:24-118 | the same on file contents, through splitting and joining |
| `TomlPatch.PatchIdempotent` | internal/hosts/patch_text_formats.go:319-321 | patching a patched file selects nothing and changes nothing |
| `TomlPatch.RoundTripChangesExactly` | internal/hosts/patch_text_formats.go:66-68 | the round trip changes exactly the lines taken for a setting of a selected server that were not in written form, lines of keys that merely begin with the word included |
| `TomlPatch.LongerKeyIsSetting` | internal/hosts/patch_text_formats.go:47-56 | a line whose key begins with command or args is taken for the setting and not read as it |
| `TomlPatch.OtherKeyIsLost` | internal/hosts/patch_text_formats.go:66-68 | such a line at the end of a selected section's settings is overwritten by the patch and not brought back: the setting stands in its place |
| `TomlPatch.TimeoutIsLost` | internal/hosts/patch_text_formats.go:24-118 | a file of one server and such a line loads and is patched; after the unpatch the line is gone and the section has two command lines |
| `TomlPatch.TimeoutOccurs` | internal/hosts/patch_text_formats.go:47-56 | such a file: the line is "command_timeout = 5" |
| `TomlPatch.ChangesOnlySettingsExactlyWhen` | internal/hosts/patch_text_formats.go:47-68 | the round trip changes nothing but command and args lines exactly when every line taken for a setting is read as it |
| `LineSplice.EditOfParts` | internal/hosts/patch_text_formats.go:200-209 | in a body split around the last line of one kind, the search finds that line, the last line of the other kind on either side of it, and the end of what stands under it |
| `LineSplice.AppliedParts` | internal/hosts/patch_text_formats.go:214-221 | the parts of an edited body: the overwritten line may stand before the block, behind what is replaced, or be lost with it |
| `LineSplice.SteppedTwice` | internal/hosts/patch_text_formats.go:214-221 | editing an edited body is as if the first edit had not been, unless the overwritten line stood in the replaced stretch or ended it |
| `LineSplice.GatheredParts` | internal/hosts/patch_text_formats.go:284-303 | what is read under all lines of a kind is what is read above the last of them and what stands under that one |
| `LineSplice.SpliceWithin` | internal/hosts/patch_text_formats.go:367-373 | an edit at indices of the whole file changes the stretch it lies in as it would change that stretch alone, and no line around it |
| `YamlPatch.FindYamlRoot` | internal/hosts/patch_text_formats.go:451-462 | the first line that is the key with a colon |
| `YamlPatch.YamlServerRanges` | internal/hosts/patch_text_formats.go:420-449 | name, first line and end of every server, agreeing with a recursive scan of the lines after the key; an error exactly without the key |
| `YamlPatch.NextYamlField` | internal/hosts/patch_text_formats.go:493-504 | the first line that ends a list of arguments |
| `YamlPatch.FindFields` | internal/hosts/patch_text_formats.go:200-209 | the last command and args lines of a server, and where its arguments end |
| `YamlPatch.ReplaceLines` | internal/hosts/patch_text_formats.go:367-373 | the lines before, the replacement, the lines after |
| `YamlPatch.RangeIs` | internal/hosts/patch_text_formats.go:189-221 | a range computed before the loop is where its server stands as long as no line before it has changed, which is why the loop runs backwards |
| `YamlPatch.WriteServer` | internal/hosts/patch_text_formats.go:214-221 | writing at indices of the current file rewrites that server alone |
| `YamlPatch.LoadYamlServers` | internal/hosts/patch_text_formats.go:277-307 | the servers read line by line, or the error |
| `YamlFiles.WordReads` | internal/hosts/patch_text_formats.go:513-526 | a word is read as its text, in double quotes, in apostrophes or as it stands |
| `YamlFiles.FileLoads` | internal/hosts/patch_text_formats.go:277-307 | a file of servers in the documented form, with comments, blank lines, deeper lines and what follows at the margin, loads as what it says |
| `YamlFiles.CommentIsNoRoot` | internal/hosts/patch_text_formats.go:451-462 | a comment is not taken for the key, even if the key looks like one |
| `YamlPatch.Patch` | internal/hosts/patch_text_formats.go:174-229 | succeeds exactly when the file loads and every selected server has both fields; the rewritten file and the recorded originals, or which server is complained about (what the written arguments start is `ProxyStart.PatchedYamlRuns`) |
| `YamlPatch.Unpatch` | internal/hosts/patch_text_formats.go:231-275 | every server with a marker gets its recorded fields back as far as it has them; which servers were restored |
| `YamlRestore.ScanParts` | internal/hosts/patch_text_formats.go:420-449 | the parts of a scan make up the lines, and each is as the scan demands |
| `YamlRestore.ScanUnique` | internal/hosts/patch_text_formats.go:420-449 | no other division into such parts has the same lines |
| `YamlRestore.LoadedWritten` | internal/hosts/patch_text_formats.go:214-221 | command and arguments that any server with both fields loads as once fields have been written into it and its text was split again, wherever its command and args lines stand and however many there are |
| `YamlRestore.ReadsBackExactlyWhen` | internal/hosts/patch_text_formats.go:277-307 | it loads as what was written exactly when the last command line is not lost in the list or another says the same, nothing is listed above the last args line or behind a command line that ended the list, and that args line has a newline |
| `YamlRestore.LoadedTwice` | internal/hosts/patch_text_formats.go:249-271 | what a server loads as after two writings |
| `YamlRestore.ServerRoundTripExactlyWhen` | internal/hosts/patch_text_formats.go:493-504 | any server with both fields gets back what it loaded as, whatever was written in between, exactly when a command line is left that says it and nothing is listed above the last args line (or, when that line ends the file without a newline, all arguments are) |
| `YamlRestore.CommandUnderArguments` | internal/hosts/patch_text_formats.go:493-504 | an input: a command line right under the arguments is loaded and does not survive |
| `YamlRestore.FirstListStays` | internal/hosts/patch_text_formats.go:200-209 | an input: a server with two lists of one argument each comes back with the first argument twice |
| `YamlRestore.RewrittenTwice` | internal/hosts/patch_text_formats.go:214-221 | when the command line is neither in the list nor what ends it, writing over written fields is as if the first writing had not been |
| `YamlRestore.LoadedKept` | internal/hosts/patch_text_formats.go:214-221 | with one args line besides, a server loads as what was written, without the arguments if that line has no newline |
| `YamlText.WrittenSplits` | internal/hosts/patch_text_formats.go:353-365 | a written file, joined and split again, is the file with each written list run together on one line where its args line had no newline, and with all other lines as written |
| `YamlText.ReadFileScans` | internal/hosts/patch_text_formats.go:420-462 | that file has the same root and the same parts around its servers |
| `YamlText.LoadsExactlyWhen` | internal/hosts/patch_text_formats.go:277-307 | a file loads as given servers exactly when the last section of each name loads as its server |
| `YamlText.WrittenLoadsExactlyWhen` | internal/hosts/patch_text_formats.go:174-229 | a written text loads as the original with the written servers in place of the old exactly when, for each of them, the last section of its name reads back what was written |
| `YamlText.PatchedLoadsExactlyWhen` | internal/hosts/patch_text_formats.go:216-229 | with one list of arguments for each selected server, a patched text loads with these wrapped and the others as before exactly when no selected args line ends the text without a newline |
| `YamlText.PatchAgainExactlyWhen` | internal/hosts/patch_text_formats.go:319-321 | for every text a patch accepts, patching what it left selects nothing exactly when every wrapped server loads as one that is not to be wrapped, and then changes nothing |
| `YamlText.KeptPatchAgainExactlyWhen` | internal/hosts/patch_text_formats.go:319-321 | with one list of arguments for each selected server, that is exactly when no selected args line ends the text without a newline (or the proxy's name is empty) |
| `YamlText.UnendedIsPatchedAgain` | internal/hosts/patch_text_formats.go:214-229 | an input: a text of one server that ends in its args line, which loads without arguments after the patch and is selected again with the proxy as its command |
| `YamlText.UnpatchRestoresExactlyWhen` | internal/hosts/patch_text_formats.go:231-275 | for every text a patch accepts, unpatching what it left loads the original servers exactly when the last section of every wrapped name gets back what it loaded as |
| `YamlText.UnpatchRestoresServers` | internal/hosts/patch_text_formats.go:231-275 | in particular when each selected server has one list of arguments, with the command line neither in it nor what ends it |
| `YamlText.UnpatchedText` | internal/hosts/patch_text_formats.go:231-275 | when no selected command line is in the list or ends it, unpatching a patched text gives the very text that writing the originals straight into the first one gives |
| `YamlQuotes.IndexUnquoted` | internal/config/yaml.go:279-304 | the first occurrence outside quotes, or -1 |
| `YamlQuotes.StripComment` | internal/config/yaml.go:70-95 | the text before the first unquoted number sign |
| `YamlQuotes.FoundOutside` | internal/config/yaml.go:279-304 | what is found is the character, and the text before it closes its quotes |
| `YamlDocument.MissingColonIsRefused` | internal/config/yaml.go:217-221 | in a mapping a line without a colon outside quotes is an error |
| `YamlQuotes.NoLoneQuote` | internal/config/yaml.go:217-228 | the text before an unquoted colon never is a single quote mark, so cutting the quotes off a key stays in range |
| `YamlParser.PreprocessYaml` | internal/config/yaml.go:43-68 | indentation and text of every line that holds something |
| `YamlParser.ParseBlock` | internal/config/yaml.go:100-112 | terminates on every list of lines and agrees with the grammar's functions |
| `YamlParser.ParseMapping` | internal/config/yaml.go:114-152 | the loop over entries agrees with the recursion over the lines left |
| `YamlParser.ParseSequence` | internal/config/yaml.go:154-215 | the loop over items agrees with it too |
| `YamlParser.ParseCompact` | internal/config/yaml.go:184-207 | a mapping that starts on its dash's line: first line alone, then with the deeper lines |
| `YamlParser.YamlToTree` | internal/config/yaml.go:21-35 | the tree of a file, an empty one being an empty object; an error when it has a number that JSON cannot write |
| `YamlRoundTrip.ScalarReads` | internal/config/yaml.go:230-273 | nothing, a truth value, a number, a word, text in either quotes and a flow collection are each read back as what is meant |
| `YamlRoundTrip.BrokenFlowIsRefused` | internal/config/yaml.go:235-244 | a flow collection that is no JSON is an error |
| `YamlRoundTrip.KeyReads` | internal/config/yaml.go:217-228 | a key is cut at its colon and loses its quotes |
| `YamlRoundTrip.BlockReads` | internal/config/yaml.go:100-215 | a block written with two-space indentation is read as the tree it denotes, and the lines after it are left |
| `YamlRoundTrip.CompactDropsStrays` | internal/config/yaml.go:184-207 | a compact list element is read as its mapping, and deeper lines beside its level are dropped |
| `YamlDocument.DocumentReads` | internal/config/yaml.go:10-68 | a whole file, with comments, blank lines and carriage returns anywhere, is read as the tree it denotes, unless that has a number that JSON cannot write, which is an error; less indented lines after it are ignored |
| `YamlDocument.EmptyDocumentReads` | internal/config/yaml.go:21-30 | a file of comments and blank lines alone is an empty object |
| `YamlDocument.FiniteEncodes` | internal/config/yaml.go:29-33 | a document whose scalars are all writable denotes a writable tree |
| `YamlDocument.InfinityIsRefused` | internal/config/yaml.go:29-33 | a mapping of one key to an unquoted infinity does not |
| `YamlDocument.ReadsToTheEndExactlyWhen` | internal/config/yaml.go:97-99 | a file that parses is read to its end exactly when every line belongs to the first line's block |
| `YamlDocument.CompactReadsAllExactlyWhen` | internal/config/yaml.go:184-207 | a mapping on its dash's line is read with all deeper lines exactly when none is indented less than its first line |
| `YamlDocument.ElementReadsExactly` | internal/config/yaml.go:183-215 | a one-line element, whatever its text, is a mapping exactly when a colon stands outside its quotes, and what is read either way, errors included |
| `YamlDocument.FlowElementIsSplit` | internal/config/yaml.go:183-195 | a flow mapping as an element becomes a mapping whose key begins with the brace |

## Left out

- Two queues on one directory at the same time: the mutex is per process and every Open recovers inflight (internal/queue/queue.go:110-115), so the no-loss property is about one live queue; ids are taken to be fresh.
- Temporary files of interrupted writes (internal/queue/queue.go:387-411): a write either happens or does not; leftover `.tmp` files are never listed and are not part of the disk.
- Torn writes and lost directory entries after a power failure: `Write` is atomic.
- Peek, Stats and RunForever of the queue and dispatcher: they only read or repeat.
- gzip, JSON text, JSON string quoting, the re-encoding of raw JSON, number syntax, timestamps and the refusal message are parameters with the laws the proofs need (inverse pairs, one line, closed quotes, encoding twice is encoding once).
- Damaged or hand-written cursor files: cursors are those that a scan stored, and every write of one succeeds.
- Prices are exact rationals; looking a model up in the price table, live lookups and 64-bit overflow of token products are parameters or not modelled.
- The capture channel of the gated forwarder: which offered frames it drops is modelled for the tee only.
- Reader errors other than end of input in the frame scanner, and HostBack locking between two writers.
- JSON trees and configuration tables are values: the loops reassign local copies, so aliasing between Go maps is not captured.
- Ulid.Generator.NewUlidAt: the mutex, the clock and the random source are parameters.
- Truncated or rotated transcripts: a scan that starts over is modelled, but the chaining theorems are about files that only grow.
- Codex llm_turn events and session metadata, which are read from the whole file at scan time.
- The bytes of argument lines that a YAML patch replaces are not recorded, so unpatch restores the loaded servers and not those lines.
- Merging of external markers: a second patch overwrites the marker file; `TomlPatch` and `YamlPatch` hand the recorded originals straight to unpatch.
- The text inside a flow collection of a YAML document is JSON's business; line numbers of YAML errors are left out.
- Strings are sequences of characters: invalid UTF-8 and byte-level trimming differences are not modelled.
- HTTP, destinations, keychain, wizard, CLI and audit log.
