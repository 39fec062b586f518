# DevBox Gateway: verified models

Dafny models of the parts of DevBox Gateway whose correctness lies in ordering,
crashes and concurrency, with proofs over every input, interleaving or history.
`dafny verify dfyconfig.toml` checks the project. Nothing here executes the gateway.

## What is modelled

**Delivery spool.** `Framing` has the newline framing and the torn-tail repair.
`SpoolModel` has the disk, the in-memory fields and one function per mutex section,
with storage outcomes as arguments. `SpoolSafety`, `SpoolRecovery` and `SpoolRuns`
define whole histories -- appends, shared fsyncs, rotations, acknowledgements,
deletions, kills, reopenings and power cuts, over any number of processes -- and prove
that an accepted record is never lost. The invariant is stated of the directory as if
what the last open adopted were on stable storage; `SpoolTrust` shows that every
section looks the same on the real and on that trusted directory. `SpoolReading` says
what a reader must return, `SpoolReaders` that this survives what happens between its
turns, `SpoolProgress` that appends become readable, that acknowledgements of what was
read succeed and that a killed process resumes, `SpoolCapacity` what the size limit
means, `SpoolLimits` and `SpoolLostName` where the promises end, `CapacityWaits` that a writer waiting for room is not
forgotten. `Spool` is the class with those fields; its methods, loops included, are
proved against the functions.

**Forwarders.** `Delivery` states what a forwarder's trace of requests, preserved
copies and acknowledgements must satisfy. `AuditForwarder` and `GuestForwarder` are
the two retry-and-isolate loops, driven by a script of collector replies, storage
outcomes and cancellation; besides safety they say that enough useful outcomes, however
mixed with others, deliver everything. `Pipeline` joins spool and forwarder: a record whose
append succeeded is still durably spooled, or such a trace shows it accepted, set aside
or unreadable.

**Rejected guest events.** `OutputHealth` has the versioned bookkeeping of failed
output writes and its interleavings with the retry worker, `OutputReadiness` when
output counts as healthy, told from the outcomes alone; `OutputSink` is the class.

**VM lifecycle.** `Provisioning` has create, rollback, recovery, removal and start,
where any hypervisor call may fail with or without effect and the gateway may die
during any of them. `Quota`, `KeyedMutex` and `Readiness` have the per-user limit, the
keyed lock and the merging of probe results.

**Sessions.** `SessionRegistry` and `SessionRevocation` have connection setup against
logout, `SessionAdmission` exactly which setups succeed; `RdpTokens` the single-use RDP
tokens; `RateLimit` and `LoginLimiter` the login rate limiter, `RateAnswers` what it
answers, `RateBounds` and `RateCleanup` what it bounds and what its sweep hides when
clock readings reach the lock out of order.

**Packages.** `ArArchive` has the ar printer and parser.

Concurrency is a state machine whose steps are the code's mutex sections. Clocks,
the collector, libvirt, the session store and storage faults are arguments.

## What the proofs say about the code

* `openSpool` takes every file and length it finds as committed without an fsync
  (internal/sauron/spool.go:141), also a new segment whose directory entry was never
  fsynced. No open or kill is excluded for that. What the spool results assume is about
  power cuts only: each one keeps the files and lengths that the last open since the
  previous cut adopted, or comes when no cut can do harm. Whether the latter holds can
  be read off the directory, and exactly so (`CutSafeExactly`), where harm is meant
  broadly: a cut also counts as harmful when it loses a delivered record of a deleted
  file, and any checkpoint or deletion not followed by its own fsync may come back or
  be undone at any later cut. Runs without power cuts
  (`KillsAreAllowed`) and runs whose opens find everything on stable storage
  (`StableRunsTrustNothing`) meet the assumption. Two histories show what happens
  otherwise: a cut that loses an adopted record makes a later accepted one be skipped
  (`LostAdoptionSkipsRecord`), and a cut that loses an adopted name takes an accepted,
  fsynced record with it (`LostNameLosesRecord`).
* When a rotation has closed the old segment and cannot create the next one, an
  append that was waiting for its fsync still succeeds, and its record is retained but
  not readable until a rotation succeeds (`FailedRotationHidesRecord`).
  `PendingExactly` says which records are readable: those that end by the commit point.
* The comment on `Append` promises durability; that holds even when the record's own
  fsync failed because a rotation closed the file, and is part of the invariant.
* A failed retry that was overtaken in flight -- its key was rejected again, or accepted
  by an attempt begun after the rejection it retries -- is forgotten, so output may be
  healthy right after a failed write (`OvertakenFailureIsIgnored`). A successful one is
  forgotten too and proves no recovery. `HealthyExactly` is the exact condition.
* A valid RDP token works (`ValidTokenWorks`) unless something is about its session: also
  a lookup of another token of the same session that finds the session expired or
  replaced takes this one with it (internal/session/rdp.go:244-256), and exactly such a
  lookup does (`OtherLookupKeeps`); and a grant whose clock reading is past the token's
  expiry sweeps it out of the index.
* The limiter reads its clock before it takes the lock
  (internal/gateway/ratelimit.go:60-61 and 88-89), so sections may use readings out of
  order. Let `skew` be the most by which a reading is behind that of an earlier section.
  Where more than one failure is allowed, a span of time is bounded in every such run
  exactly up to the smaller of lockout - 2 skew and window + 1 - skew, in nanoseconds;
  where one is allowed, exactly up to lockout - skew (`BoundedExactly`). A span of the
  whole window, which the settings promise, is therefore bounded for readings in order
  exactly when the lockout is at least the window. Where more than one failure is allowed,
  as by default, it no longer is once readings may be two nanoseconds out of order,
  however long the lockout (`WindowBoundedExactly`). `BreaksBeyond` builds the failing run
  for every configuration and skew.
* The periodic sweep changes no answer unless an operation uses an older reading than a
  sweep before it (`CleanupIsInvisible`). With readings out of order there always is a
  run in which it does: for every configuration it is invisible in all runs exactly when
  the skew is zero (`InvisibleExactly`).
* An ar archive that parses is written back byte for byte exactly when its padding
  bytes are present and are newlines (`RewritesExactly`); the parser accepts others.
  Parsing panics exactly when whole members lead to a header whose size reads negative
  (`PanicsExactly`).

## Model

| member | source | states |
|---|---|---|
| Framing.LastBoundaryIsGreatest | internal/sauron/spool.go:228-262 | The kept length is a record boundary and no later offset is one. |
| Framing.RepairTail | internal/sauron/spool.go:228-262 | The chunked backward scan keeps exactly up to the last newline, or nothing. |
| Framing.RecordsFromContains | internal/sauron/spool.go:557-583 | Every whole line at or after a boundary is among the records read from it. |
| Framing.RecordsFromIntact | internal/sauron/spool.go:557-583 | Every record read is a whole line of the file, at or after where reading began. |
| Framing.RecordsFromTile | internal/sauron/spool.go:557-583 | Between two boundaries the records read make up all the bytes: none is skipped. |
| SpoolModel.DeliveredCounts | internal/sauron/spool.go:621-634 | Exactly the leading segments that end at or before the checkpoint are deletable, never the last. |
| SpoolSafety.RotateKeeps | internal/sauron/spool.go:410-443 | A rotation, failing at any of its storage calls or not, keeps the spool invariant. |
| SpoolSafety.RemoveKeeps | internal/sauron/spool.go:621-634 | Deleting delivered segments, stopping at any failure, keeps the invariant: only settled records lose their file. |
| SpoolSafety.ReclaimKeeps | internal/sauron/spool.go:398-406 | Reclaiming a fully delivered active segment keeps the invariant. |
| SpoolSafety.EnsureCapacityKeeps | internal/sauron/spool.go:375-395 | The capacity check with its reclaim keeps the invariant, refused or not. |
| SpoolSafety.AppendKeeps | internal/sauron/spool.go:344-373 | An append writes its record whole behind all others and keeps every earlier one. |
| SpoolSafety.BeginSyncKeeps | internal/sauron/spool.go:447-464 | What an fsync captures is a boundary covering every record numbered up to its target. |
| SpoolSafety.EndSyncKeeps | internal/sauron/spool.go:464-490 | Publishing a finished fsync never announces a record that is not durable, whatever happened since the capture. |
| SpoolSafety.AcceptKeeps | internal/sauron/spool.go:331-341 | An append that returns without error is durable, also when its own fsync failed. |
| SpoolSafety.AckKeeps | internal/sauron/spool.go:589-617 | An acknowledgement, saved, failed or saved with an error, keeps the invariant; the checkpoint stays a boundary. |
| SpoolRecovery.CloseKeeps | internal/sauron/spool.go:645-660 | Closing keeps the invariant. |
| SpoolRecovery.PowerLossKeeps | internal/sauron/spool.go:114-147 | A harmless power cut -- durable bytes and any prefix of the rest, fsynced names and any of the others -- leaves a directory with the disk invariant and nothing taken on trust. |
| SpoolRecovery.OpenKeeps | internal/sauron/spool.go:114-147 | Opening any directory a run can leave -- repair, listing, checkpoint, deletion -- establishes the process invariant on the trusted view. |
| SpoolTrust.TrustOpen | internal/sauron/spool.go:114-147 | Opening a directory and opening it with everything fsynced give the same process. |
| SpoolTrust.TrustAppend | internal/sauron/spool.go:344-373 | An append does the same to the real and to the trusted directory. |
| SpoolRuns.StepKeeps | internal/sauron/spool.go:114-660 | Every section of every process, every open and every kill keeps the invariant, and so does a power cut that is harmless to accepted records and saved positions. |
| SpoolRuns.AcceptedNeverLost | internal/sauron/spool.go:331-443 | Over every history with allowed power cuts, an accepted record is settled or whole and fsynced in a listed file. |
| SpoolRuns.UnsettledIsPending | internal/sauron/spool.go:494-583 | An unsettled record below the commit point is read back, intact, from the checkpoint. |
| SpoolRuns.AcceptedIsDelivered | internal/sauron/spool.go:267-289 | Over every such history, while the last segment is open, every accepted record is settled or pending in order from the checkpoint, with increasing ends. |
| SpoolRuns.CutSafeExactly | internal/sauron/spool.go:138-147 | For every reachable directory: all possible power cuts are harmless if and only if accepted records and saved positions lie in fsynced bytes under fsynced names, and a listed segment with a fsynced name follows every deleted one. |
| SpoolRuns.KillsAreAllowed | internal/sauron/spool.go:114-147 | A run without power cuts needs no allowance. |
| SpoolReading.TakeIsLongest | internal/sauron/spool.go:494-526 | A batch is the longest prefix the limits allow; only its last record may pass the byte limit. |
| SpoolReading.EmptyOnlyWhenCaughtUp | internal/sauron/spool.go:494-526 | With room for a record a batch is empty if and only if nothing committed follows. |
| SpoolReading.PendingIncreases | internal/sauron/spool.go:494-583 | End positions strictly increase across segment ends. |
| SpoolReading.PendingContains | internal/sauron/spool.go:494-583 | Every whole committed record at or after the starting boundary is pending. |
| SpoolReading.PendingBelow | internal/sauron/spool.go:530-553 | Nothing pending ends beyond the commit point. |
| SpoolReading.SkipDeleted | internal/sauron/spool.go:494-526 | Skipping a deleted segment changes nothing of what is pending. |
| SpoolReading.TurnAdvances | internal/sauron/spool.go:494-526 | One turn of the reader -- stop, skip ahead or read on -- leaves exactly the rest of the batch to be read. |
| SpoolReaders.PendingGrows | internal/sauron/spool.go:344-490 | Whatever a section appends, commits, rotates or deletes, what was pending from a position at or after the checkpoint stays a prefix of what is. |
| SpoolReaders.ConcurrentRead | internal/sauron/spool.go:494-553 | A batch read while the process goes on between the turns is a gapless run of what is pending at the end; run to its end, it has at least what was pending at the start, within the limits. |
| SpoolProgress.AckMovesOn | internal/sauron/spool.go:589-617 | The end of any pending record can be acknowledged: with working storage checkpoint and saved position move there, and what is pending is exactly the rest. |
| SpoolProgress.AckDelivers | internal/sauron/spool.go:589-617 | The same in every reachable state of the histories. |
| SpoolProgress.AckRefusedExactly | internal/sauron/spool.go:293-327 | A later position is refused if and only if it is past the commit point, or in no listed segment at its start or right after a readable newline. |
| SpoolProgress.RunResumes | internal/sauron/spool.go:267-289 | After every history with allowed cuts, a process killed with its checkpoint saved is followed by one that resumes there, or at the oldest segment if that one is deleted, with all that was pending still pending in order. |
| SpoolProgress.AppendIsRead | internal/sauron/spool.go:331-341 | In every reachable state, an append that finds room and whose fsync works is accepted, and its record can be read from the checkpoint. |
| SpoolProgress.AppendPlaces | internal/sauron/spool.go:344-373 | An accepted line starts the next segment if and only if the last one is closed, would outgrow the segment size, or is delivered whole with no room left; else it ends the last one. |
| SpoolCapacity.TotalIsExactAndBounded | internal/sauron/spool.go:375-406 | Over every history, whatever the opens and cuts, `total` is the sum of the live segments and at most the larger of the limit and its value at open. |
| SpoolCapacity.FitsIsAccepted | internal/sauron/delivery_spool.go:120-131 | A line that fits in limit minus the reported use is accepted when storage works. |
| SpoolCapacity.AdmissionAgrees | internal/sauron/spool.go:375-406 | With working storage an append succeeds if and only if its line fits beside what deleting delivered segments cannot free; otherwise the answer is that the spool is full. |
| SpoolCapacity.ReportIsSafe | internal/sauron/delivery_spool.go:96-131 | The reported use is never below what an append finds, and equal to it unless a delivered segment is left undeleted. |
| SpoolLimits.StepForward | internal/sauron/spool.go:481-490 | In one process the commit point, the checkpoint and the counters never move back. |
| SpoolLimits.SyncedIsDurable | internal/sauron/spool.go:447-490 | Over every history with allowed cuts, records numbered up to `synced` are fsynced; the commit point is a boundary of the last segment that is fsynced or was adopted. |
| SpoolLimits.PendingExactly | internal/sauron/spool.go:410-443 | Over every such history, an accepted, unsettled record is readable if and only if it ends by the commit point; always while the last segment is open. |
| SpoolLimits.FailedRotationHidesRecord | internal/sauron/spool.go:410-427 | A history in which a failed rotation leaves an accepted record retained but not readable. |
| SpoolLimits.LostAdoptionSkipsRecord | internal/sauron/spool.go:138-147 | A history in which a power cut loses bytes an open had adopted, and an accepted record is never delivered. |
| SpoolLimits.StableRunsTrustNothing | internal/sauron/spool.go:138-147 | If every open finds its directory on stable storage, all power cuts are allowed and nothing adopted is unsynced. |
| SpoolLostName.LostNameLosesRecord | internal/sauron/spool.go:429-443 | A history in which a power cut loses a directory entry an open had adopted, and with it an accepted, fsynced record. |
| SpoolCode.Spool.constructor | internal/sauron/spool.go:114-147 | The opened object, its tail repaired by the backward scan and its checkpoint validated, is the model's open of that directory. |
| SpoolCode.Spool.LoadCheckpoint | internal/sauron/spool.go:267-289 | The saved position exactly when it is still a valid one, else the oldest record. |
| SpoolCode.Spool.Rotate | internal/sauron/spool.go:410-427 | Fields and disk after a rotation, for each failing call. |
| SpoolCode.Spool.RemoveDelivered | internal/sauron/spool.go:621-634 | The deletion loop removes exactly the deliverable segments, or up to the first failure. |
| SpoolCode.Spool.EnsureCapacity | internal/sauron/spool.go:375-395 | The capacity section is the model's, including the `full` flag. |
| SpoolCode.Spool.AppendLocked | internal/sauron/spool.go:344-373 | The append section is the model's for every outcome of its storage calls. |
| SpoolCode.Spool.BeginSync | internal/sauron/spool.go:447-464 | Done if and only if already synced; otherwise captures the last segment, its size and the newest number. |
| SpoolCode.Spool.EndSync | internal/sauron/spool.go:464-479 | An error is returned only when the fsync failed and nobody else covered the record. |
| SpoolCode.Spool.ValidateCheckpoint | internal/sauron/spool.go:293-327 | Accepts exactly the committed boundaries of listed segments. |
| SpoolCode.Spool.Acknowledge | internal/sauron/spool.go:589-617 | The acknowledge section is the model's for every outcome. |
| SpoolCode.Spool.ReadableRange | internal/sauron/spool.go:530-553 | The readable limit of a segment and the next one, skipping deleted segments. |
| SpoolCode.Spool.ReadSegment | internal/sauron/spool.go:557-583 | One segment's records from an offset, cut at the limits. |
| SpoolCode.Spool.ReadTurn | internal/sauron/spool.go:498-523 | One turn is the specified one for the store as it is at that moment, or a failed read. |
| SpoolCode.Spool.ReadBatch | internal/sauron/spool.go:494-526 | On a store at rest, terminates and returns exactly the batch specified, or a prefix of it when a read fails. |
| CapacityWaits.NoLostWakeUp | internal/sauron/delivery_spool.go:60-91 | In every interleaving, a writer still waiting while no acknowledgement is under way was refused after the last one. |
| CapacityWaits.CloseWaits | internal/sauron/delivery_spool.go:192-202 | The store is closed only when no operation on it is under way. |
| Delivery.PostedAccepted | internal/audit/hec.go:213-220 | An accepted request lets delivery pass exactly the records it carried. |
| Delivery.Preserved | internal/audit/hec.go:285-298 | A preserved copy lets delivery pass its record, given an earlier invalid verdict on it alone. |
| Delivery.Acknowledged | internal/audit/hec.go:188-200 | A position at or below what is settled may be acknowledged, repeatedly until it succeeds. |
| Delivery.AcrossRestarts | internal/audit/hec.go:154-184 | Over any number of lifetimes, each record before an acknowledged position was settled in one of them. |
| AuditForwarder.Forwarder.Reject | internal/audit/hec.go:285-298 | Keeps trying to preserve the record; gives up only when cancelled. |
| AuditForwarder.Forwarder.DeliverIsolated | internal/audit/hec.go:261-280 | The record alone is accepted or preserved; otherwise the context was cancelled. |
| AuditForwarder.Forwarder.Isolate | internal/audit/hec.go:250-257 | The records one by one, in order, each settled before the next is sent. |
| AuditForwarder.Forwarder.Deliver | internal/audit/hec.go:207-244 | Reports success only when every record of the batch is settled, failure only when cancelled. |
| AuditForwarder.Forwarder.Checkpoint | internal/audit/hec.go:188-200 | Retries the position without sending anything in between. |
| AuditForwarder.Forwarder.Run | internal/audit/hec.go:154-184 | For every script: positions are offered only past settled records, nothing accepted, preserved or acknowledged is sent again, every read is followed by one request for exactly the records read from the checkpoint, up to a hundred; the loop ends only when cancelled or stopped while idle; undisturbed and with three useful outcomes per record, five where events may be invalid, among any others, everything is delivered and acknowledged. |
| GuestForwarder.Forwarding.Deliver | internal/sauron/forward.go:279-307 | The settled count covers only accepted, individually invalid or unreadable records; it is all of them unless a request failed. |
| GuestForwarder.Forwarding.Isolate | internal/sauron/forward.go:315-332 | Settles up to the first request that fails for another reason than an invalid event. |
| GuestForwarder.Forwarding.AdvanceCheckpoint | internal/sauron/forward.go:230-237 | On failure the position stays pending; the spool holds the old or the pending one. |
| GuestForwarder.Forwarding.DeliverAndAdvance | internal/sauron/forward.go:217-225 | Success means the whole batch is settled and checkpointed. |
| GuestForwarder.Forwarding.ForwardOnce | internal/sauron/forward.go:154-166 | With a checkpoint pending, the only thing done is another attempt at it; otherwise what is readable is sent as one request of exactly the records read; empty only when nothing is pending or readable. |
| GuestForwarder.Forwarding.Run | internal/sauron/forward.go:135-150 | After any number of rounds the trace is good and the spool checkpoint is the position or the pending one; with enough useful outcomes and rounds everything is delivered and acknowledged. |
| Pipeline.ReadCovers | internal/sauron/spool.go:494-526 | A batch read from the checkpoint holds every record not yet dealt with that ends by its last one. |
| Pipeline.AppendsAfter | internal/sauron/spool.go:344-373 | An append, with or without reclaim and rotation, writes at or after the earlier commit point. |
| Pipeline.AckMeansShipped | internal/audit/hec.go:188-200 | Where a forwarder with a good trace acknowledges a position, the records before it are shipped as the joint run demands. |
| Pipeline.AcceptedIsShippedOrRetained | internal/audit/hec.go:154-184 | Spool and forwarder together: over every interleaving and allowed crash, an accepted record is durably spooled, or a forwarder's trace shows its payload accepted, set aside after a verdict on it alone, or unreadable. |
| OutputHealth.BookkeepingExact | internal/sauron/output_health.go:98-173 | Over every interleaving the byte counter is the remembered records plus a superseded one in flight, at most 64 MiB; at most 4096 entries; versions distinct. |
| OutputReadiness.HealthyExactly | internal/sauron/output_health.go:98-185 | Over every interleaving, output is healthy if and only if no rejection met the overflow condition and there was no failure, or a write begun after the last one succeeded when every rejected key had been accepted by an attempt begun after its rejection; failures of overtaken retries excepted. |
| OutputReadiness.OverflowRaised | internal/sauron/output_health.go:150-167 | A step raises overflow if and only if it counts a guest rejection whose key is new with 4096 remembered, whose encoding is empty, or whose encoding exceeds 64 MiB minus what is held once the old copy is released; otherwise exactly the encoded size is remembered. |
| OutputReadiness.OverflowExactly | internal/sauron/output_health.go:150-167 | Over every interleaving, overflow is set if and only if some step met that condition. |
| OutputReadiness.HealthyMeansAnswered | internal/sauron/output_health.go:137-185 | When healthy, every rejection other than an overtaken retry's was answered by an accepted attempt begun after it. |
| OutputReadiness.OvertakenFailureIsIgnored | internal/sauron/output_retry.go:122-131 | An interleaving that ends healthy although the last write of a key failed. |
| OutputHealth.RecoveryPossible | internal/sauron/output_health.go:64-79 | Short of overflow, from every reachable state one more accepted write per remembered key makes output healthy. |
| OutputHealth.StepNeverHides | internal/sauron/output_health.go:137-148 | No step clears overflow; a write or retry in flight during a later failure never clears the error. |
| OutputHealth.OverflowStays | internal/sauron/output_health.go:150-167 | Overflow holds for the rest of every run. |
| OutputHealth.NothingMovesAhead | internal/sauron/output_retry.go:77-101 | While a record keeps its version nothing moves ahead of it, and a retried record leaves its place. |
| OutputHealth.SkippedEncodingChangesNothing | internal/sauron/output_retry.go:38-52 | When nothing can be retained, encoding the event or not gives the same state. |
| OutputSink.ObservedSink.EncodedSize | internal/sauron/output_health.go:68-77 | Not encoding when nothing can be retained leads to the same recorded state. |
| OutputSink.ObservedSink.RejectLocked | internal/sauron/output_health.go:150-167 | The rejection section is the model's, including both overflow cases. |
| OutputSink.ObservedSink.AcceptLocked | internal/sauron/output_health.go:137-148 | The acceptance section is the model's. |
| OutputSink.ObservedSink.RecordLocked | internal/sauron/output_health.go:98-119 | The record section is the model's for writes and flushes. |
| OutputSink.ObservedSink.RetryBatch | internal/sauron/output_retry.go:90-101 | Exactly the retriable records with fewer than 64 retriable ones ahead, in ascending version. |
| OutputSink.ObservedSink.StartRetry | internal/sauron/output_retry.go:103-112 | Starts only on the very record the candidate named and not one in flight. |
| OutputSink.ObservedSink.FinishRetry | internal/sauron/output_retry.go:122-134 | A superseded attempt only gives back its bytes; otherwise its outcome is recorded. |
| Provisioning.Gateway.RunRecovery | internal/virt/provisioning_recovery.go:92-123 | Safe after every call; when it succeeds on an unfinished or rolled-back creation nothing is left; a ready one is untouched. |
| Provisioning.Gateway.Recover | internal/virt/provisioning_recovery.go:44-61 | Removes an unfinished creation entirely and leaves anything else alone; succeeds when every call works. |
| Provisioning.Gateway.Rollback | internal/virt/provisioning_recovery.go:63-77 | Success leaves nothing of the failed creation. |
| Provisioning.Gateway.StartVM | internal/virt/boot.go:84-155 | The domain is ready before it first runs; success means running with all resources. |
| Provisioning.Gateway.ProvisionResources | internal/virt/provision.go:298-324 | Success means reservation, disk and seed exist and the domain runs; any failure leaves a safe host. |
| Provisioning.Gateway.Create | internal/virt/provision.go:257-296 | Success leaves a complete running VM under a name that was free or unfinished; a clean failure leaves nothing or the host as it was. |
| Provisioning.Gateway.PrepareDeletion | internal/virt/deletion.go:40-65 | Marked first; success means marked, no autostart and stopped. |
| Provisioning.Gateway.Remove | internal/virt/provision.go:330-373 | Success leaves nothing; any partial removal leaves the domain marked as deleting. |
| Provisioning.Gateway.RemoveVolumes | internal/virt/internal/storage/volume.go:33-63 | Tries both volumes; success means both are gone. |
| Provisioning.Gateway.Start | internal/virt/power.go:12-56 | Refused unless ready and not deleting; success means running with all resources. |
| Provisioning.Gateway.Run | internal/virt/provisioning_recovery.go:19-61 | Over every history of operations, deaths, reboots and operator changes: nothing exists without its domain, what may start or runs is complete; a last fault-free recovery leaves nothing unfinished. |
| SessionRegistry.Manager.RegisterUserConnection | internal/session/session.go:372-401 | Registers exactly when open, current, unexpired and below the limit; the drain signal stays right. |
| SessionRegistry.Manager.UnregisterConnection | internal/session/session.go:404-418 | Removes the one registration and lowers the count; signals the drain at zero. |
| SessionRegistry.Manager.CloseUserConnections | internal/session/session.go:424-447 | Starts a new generation and returns each of the user's close functions. |
| SessionRegistry.Manager.CloseAllConnections | internal/session/session.go:455-470 | Refuses later registrations and returns every close function. |
| SessionRevocation.NoThirdOutcome | internal/gateway/handlers.go:284-302 | After a logout that deleted the session and revoked, a connection authorized from it can no longer register, was refused, has ended, or has its close function called. |
| SessionRevocation.EntryStaysOrTaken | internal/session/session.go:424-447 | A registration leaves the registry only by its own handler or into the hands of a closer. |
| SessionRevocation.ActiveIsExact | internal/session/session.go:372-419 | The active count is the number of connections whose handlers have not left; no user exceeds the limit. |
| SessionAdmission.JoinsExactly | internal/session/session.go:372-401 | In every run, a setup registers if and only if there was no shutdown, no revocation of its user since it captured the generation, the session is unexpired, and the user has fewer open connections than the limit. |
| SessionAdmission.ValidatesExactly | internal/session/connection_authorization.go:40-62 | In every run, a setup gets its ticket if and only if the store answers with a session that its user logged in with and that was not removed since. |
| RdpTokens.AtMostOnce | internal/session/rdp.go:169-196 | Over any run, including stale saves that restore a grant, failed commits and restarts, a token succeeds at most once. |
| RdpTokens.SuccessMatchesIssue | internal/session/rdp.go:214-263 | Success implies the issuing user, address, VM and session, within two minutes of issue and before the session's end. |
| RdpTokens.SupersededIsDead | internal/session/rdp.go:126-143 | After a newer grant for the session and VM, a revocation or a restart, an earlier token never succeeds again. |
| RdpTokens.ValidTokenWorks | internal/session/rdp.go:169-263 | A committed token that no step in between was about authorizes the connection it was issued for, when presented before expiry with the store working, and is spent by it. |
| RdpTokens.OtherLookupKeeps | internal/session/rdp.go:214-263 | Looking up another token leaves this one usable if and only if it does not find their common session expired or replaced. |
| RdpTokens.Manager.GrantStored | internal/session/rdp.go:56-105 | Issues exactly when the stored session is the caller's, live and addressable; the index learns of a grant only once it is stored. |
| RdpTokens.Manager.IndexGrant | internal/session/rdp.go:126-143 | Drops expired entries and the session's earlier one for the VM, then adds the new one. |
| RdpTokens.Manager.LoadGrant | internal/session/rdp.go:214-263 | Loads exactly when all conditions hold, and forgets what each failing condition says. |
| RdpTokens.Manager.RemoveSessionIndex | internal/session/rdp.go:266-272 | Removes exactly the session's entries. |
| RdpTokens.Manager.AuthorizeConnection | internal/session/rdp.go:169-196 | Is the run model's authorization step, for every store outcome. |
| Quota.NeverOverLimit | internal/virt/quota.go:50-116 | In every interleaving, the scan listing first and asking owner by owner, an owner's domains never exceed the limit, or what they owned at the start. |
| Quota.AdmissionIsExact | internal/virt/quota.go:67-77 | With no creation of the owner visible yet, a slot is granted if and only if domains and creations are below the limit. |
| Quota.Reservations.Reserve | internal/virt/quota.go:50-78 | Admits by count plus creations in flight; a failed count refuses; no limit admits all. |
| Quota.Reservations.CountOwned | internal/virt/quota.go:98-116 | The number of domains of the owner, or failure when any owner is unreadable. |
| KeyedMutex.OneHolderPerKey | internal/virt/namelock.go:42-83 | In every interleaving with cancellation: one holder per key, one shared entry, its count the number of goroutines there, the key present exactly while there is one. |
| KeyedMutex.WaitersCanAcquire | internal/virt/namelock.go:57-74 | A waiter can take the key unless somebody holds it. |
| KeyedMutex.EntriesOutliveVisits | internal/virt/namelock.go:52-67 | A goroutine's entry exists as long as the goroutine refers to it. |
| KeyedMutex.Mutex.Reference | internal/virt/namelock.go:46-55 | Returns the key's entry, new or shared, counted once more, others untouched. |
| KeyedMutex.Mutex.ReleaseReference | internal/virt/namelock.go:76-83 | Lowers the count and drops the key at zero. |
| RateBounds.WindowBound | internal/gateway/ratelimit.go:81-120 | In every run whose readings are at most `skew` out of order, no span within reach holds more recorded failures of an address, or of a user there since the last success, than allowed. |
| RateBounds.BreaksBeyond | internal/gateway/ratelimit.go:81-120 | For every configuration, skew and longer span, a run that puts one failure too many into it. |
| RateBounds.BoundedExactly | internal/gateway/ratelimit.go:81-120 | A span is bounded in all such runs if and only if it is at most lockout - 2 skew and window + 1 - skew, or lockout - skew where one failure is allowed. |
| RateBounds.WindowBoundedExactly | internal/gateway/ratelimit.go:81-120 | Whole windows are bounded in all such runs if and only if the lockout is long enough for the skew and, where more than one failure is allowed, the skew is at most one. |
| RateBounds.LockoutIsEarned | internal/gateway/ratelimit.go:107-117 | A recorded failure locks its address, or its user there, only when as many as are allowed have readings within one window before it, and always when the others have readings within reach; failures before the user's last success do not count. |
| RateAnswers.QueryExactly | internal/gateway/ratelimit.go:55-79 | A query is answered with the longer of the user's and the address's remaining lockout, where each applies. |
| RateAnswers.FailureExactly | internal/gateway/ratelimit.go:83-120 | A failure is answered with the lockout that applied before it; without one, with a whole lockout if and only if it locks its user or its address. |
| RateAnswers.RecordsExactly | internal/gateway/ratelimit.go:83-120 | A failure is recorded for what it names, where a limit applies, if and only if no lockout applies. |
| RateAnswers.SuccessIsFresh | internal/gateway/ratelimit.go:124-135 | After a success every later answer is that of a limiter in which the user never failed at the address; without a usable name no answer changes. |
| RateLimit.CleanupIsInvisible | internal/gateway/ratelimit.go:190-202 | The limiter with periodic cleanup answers as one without, unless an operation uses an older reading than a sweep before it. |
| RateCleanup.LockedRunShows | internal/gateway/ratelimit.go:190-202 | For every configuration, a run with one reading one unit too old in which the sweep makes an answer differ. |
| RateCleanup.InvisibleExactly | internal/gateway/ratelimit.go:190-202 | In all runs with readings at most `skew` out of order the answers are those without the sweep, if and only if the skew is zero. |
| RateLimit.PruneTwice | internal/gateway/ratelimit.go:173-188 | Pruning earlier changes nothing about pruning later. |
| LoginLimiter.LoginRateLimiter.PruneBucket | internal/gateway/ratelimit.go:173-188 | The loop keeps exactly the failures inside the window, or resets an expired lockout. |
| LoginLimiter.LoginRateLimiter.CleanupExpired | internal/gateway/ratelimit.go:190-202 | When due, prunes all buckets and deletes exactly the idle ones. |
| LoginLimiter.LoginRateLimiter.RetryAfter | internal/gateway/ratelimit.go:55-79 | State and answer are the model's step. |
| LoginLimiter.LoginRateLimiter.RecordFailure | internal/gateway/ratelimit.go:83-120 | State and answer are the model's step; an existing lockout is not extended. |
| LoginLimiter.LoginRateLimiter.RecordSuccess | internal/gateway/ratelimit.go:124-135 | Clears the pair's bucket and no other. |
| Readiness.OrderIrrelevant | internal/virt/rdp_readiness.go:142-180 | Results with distinct observation numbers give the same snapshot in any order. |
| Readiness.MergeIsLatest | internal/virt/rdp_readiness.go:142-180 | For numbered results, the last entry of a name ends with readiness and observation of the matching result of greatest number, if that exceeds its own; every other entry is unchanged. |
| Readiness.RefreshCarries | internal/virt/rdp_readiness.go:194-218 | A refresh carries generation, observation and, while running, readiness of an unchanged target over; a changed one starts afresh. |
| Readiness.StaleResultIgnored | internal/virt/rdp_readiness.go:182-226 | A result changes an entry only if it is the very target that was probed, however many snapshots came between; observations never go back. |
| Readiness.RefreshKeeps | internal/virt/rdp_readiness.go:194-218 | A new snapshot reissues no generation: each belongs to one target for good. |
| Readiness.VmInventory.ApplyResults | internal/virt/rdp_readiness.go:142-180 | The merge of the results in order; signals a change if and only if some result turned a readiness. |
| Readiness.VmInventory.SetVms | internal/virt/inventory_worker.go:228-239 | The snapshot and generation counter after a refresh. |
| Readiness.VmInventory.Jobs | internal/virt/rdp_readiness.go:114-136 | One job per name, each about a running, addressed VM of the owner, none missing. |
| ArArchive.RoundTrip | internal/deb/control.go:45-89 | Parsing what was written gives back every header and body, for all members with a printed size field. |
| ArArchive.NewMemberIsSized | internal/deb/writer.go:210-222 | The printer succeeds if and only if name, time and size fit their fields, and then the size field reads back. |
| ArArchive.HeaderFields | internal/deb/writer.go:210-222 | Time, owner, group, mode, size and end mark stand at their offsets, and the numbers read back. |
| ArArchive.SignatureIsFixed | internal/deb/control.go:45-50 | Every archive starts with the ar signature, and an input is refused for its signature if and only if it does not. |
| ArArchive.NameReads | internal/deb/control.go:30-32 | The name reads back unless it ends in a space. |
| ArArchive.SizeFieldReads | internal/deb/control.go:57-61 | A space-padded decimal size reads back as the number printed. |
| ArArchive.SetSizeIsSized | internal/deb/control.go:36-41 | A replaced body whose length fits the field keeps the round trip and the rest of the header. |
| ArArchive.RewritesExactly | internal/deb/control.go:45-89 | An archive that parses is written back unchanged if and only if its padding bytes are newlines. |
| ArArchive.ArMember.SetData | internal/deb/control.go:36-41 | Rewrites the size field in place; fails exactly for lengths of more than ten digits. |
| ArArchive.ParseAr | internal/deb/control.go:45-74 | The parsing loop for every input, error cases included. |
| ArArchive.PanicsExactly | internal/deb/control.go:52-71 | Parsing panics if and only if whole members lead to a header whose size reads negative. |
| ArArchive.WriteAr | internal/deb/control.go:78-89 | Magic, then each header, body and padding in order. |

## Left out

- Directory locking, file permissions and opens that fail: a spool whose open fails has no process in the model.
- Taking back a partial write is taken to succeed, and a successful fsync to make the whole captured prefix durable.
- Checkpoint files with negative offsets are treated as unreadable ones.
- SpoolRuns.AcceptedIsDelivered: says "while the last segment is open"; SpoolLimits.PendingExactly gives the exact condition otherwise.
- SpoolRuns.AcceptedNeverLost: a power cut that loses what an open adopted unsynced is excluded unless the directory is safe against every cut; SpoolLostName.LostNameLosesRecord and SpoolLimits.LostAdoptionSkipsRecord show why.
- SpoolRuns.CutSafeExactly: a directory fsync makes listed names durable, but not deletions or the checkpoint's rename, so more cuts count as possible than the code leaves.
- SpoolCode.Spool.ReadTurn: asking how far to read and reading that far are one turn; a segment deleted between the two is a failed read.
- CapacityWaits.NoLostWakeUp: the gate's fields are a value, since what matters is the interleaving of its sections; update in place is not modelled.
- Timers, backoff durations, log lines and stall reporting of the forwarders; a script that ends stands for cancellation.
- AuditForwarder.Forwarder.Run: the spool's batch limits other than the record count do not appear, because any leading part of what is pending may be read.
- JSON encoding of events: a record that cannot be encoded is one without a payload, and a payload is never empty.
- OutputHealth.BookkeepingExact: the failure counter does not wrap at 64 bits.
- Identity checks of provisioning recovery (UUID, pool path, foreign users of a volume) appear only as calls that may fail; one name is modelled, under its lock.
- Provisioning.Gateway.Outside: an operator sets autostart only on a VM that may be started, and between operations.
- Domains created without a record (the legacy path of StartVM that undefines a partial domain) are only started and removed.
- SessionRevocation.NoThirdOutcome: session identifiers are not reused after deletion; user names are taken as already trimmed and not blank.
- SessionAdmission.ValidatesExactly: a session found expired or undecodable counts as one the store did not answer with.
- The session store's own expiry auditing, password hashes and cookies.
- RdpTokens.AtMostOnce: tokens are fresh when issued, as 128 random bits are taken to be.
- Quota.NeverOverLimit: domains of the owner made by other programs are not modelled.
- ArArchive.NewMemberIsSized: names are sequences of single-byte characters, which is what the package writer uses.
- User interface, console and VNC bridges, LDAP, TLS, ACME, cloud-init, RPM and tar/gzip handling: no property beyond branch-level behaviour.
- The inventory worker's cap on concurrent sweeps, whose counter rises inside the spawned goroutine.
