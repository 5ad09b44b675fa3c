# Iceberg in Dafny

Iceberg scans content sources for leaked credentials. Engines fetch content and report what they
find; the API stores findings, lets analysts triage them and tells people about them. This project
models the parts of it that are hard to get right and proves what they are for.

- **Batch protocol** (`BatchProtocol`, `ProtocolInvariant`, `ProtocolTheorems`, `Batcher`): an engine
  flushes batches mid-fetch, messages and replies are lost or duplicated, engines crash and others
  resume from the stored position. A step system over all of this, an invariant every step keeps, and
  exactly-once accounting over every run. The two stateful ends, the engine's batcher and the API's
  task row, are classes whose methods are proved, call by call, to make the model's moves.
- **The engine's runner** (`Runner`, `RunnerTheorems`): a whole fetch as it is written, driving the
  batcher unit by unit, proved to be a stretch of a run of the protocol among anything others do.
- **Coverage** (`Coverage`, `CoverageRecorder`): recorded operations, reports, differences and their
  accumulation, and exactly which differences the validators accept.
- **A resumable connector** (`FakeConnector`): a concrete fetch loop that keeps the contract the
  protocol rests on, and the whole stack applied to it.
- **Redaction and detection** (`Spans`, `Sorting`, `Redaction`, `Rendering`, `Scrub`, `Refusal`,
  `Detection`): span arithmetic, the masking fixpoint, the layout, the stored text, when it is refused,
  and the pass that feeds it.
- **Finding lifecycle** (`Findings`, `Trail`, `Ingest`, `Sweep`, `Suppressions`, `Lifecycle`,
  `LifecycleTheorems`, `FindingStore`): sightings, re-keying, suppressions, ownership, triage and
  reconciliation as one state machine over the findings register.
- **Escalation, callbacks, fingerprints, rate limiters** (`Escalation`, `Callback`, `Fingerprint`,
  `Limiters`).
- **Failing inputs** (`Witnesses`, `Counterexamples`): a run or a value for every promise that does not
  hold unconditionally.

`dafny verify dfyconfig.toml` checks the whole project.

## What turned out not to hold as stated

- *What is accepted is what the stored position names.* A position can be given up in two ways: the API
  drops it after a configuration or rule pack change, or the engine's connector does not know the
  checkpoint's version and starts over. Either way coverage, tallies and counter are kept, so the units
  before it stay counted and count again as they are read again. The accepted units are exactly the
  prefix the position names if and only if neither happens past the start
  (`ProtocolTheorems.ExactlyOnceIff`; what they are otherwise, `ProtocolTheorems.AcceptedWork`);
  `Witnesses.ConfigurationChangeRestarts` and `Witnesses.VersionChangeCountsTwice` give runs.
- *Accumulated coverage is kept.* A lease that fails because the pepper or the credential cannot be read
  writes a report of nothing read over it, where a cancellation merges
  (`ProtocolTheorems.CoverageSurvivesIff`, `Witnesses.FailedLeaseLosesCoverage`).
- *A replay is acknowledged only for its own batch.* The API fences by engine id, so two attempts under
  one id can acknowledge each other's numbers (`ProtocolTheorems.ReplayAcknowledgesAnotherBatch`,
  `Counterexamples.AcknowledgedButNotStored`). In the model an engine leases again only once none of its
  attempts runs and none of its messages travels.
- *Recorded coverage is accepted.* An object operation under the scope kind is recorded and then makes
  its report invalid (`Coverage.PayloadAcceptedIff`, `Counterexamples.ScopeKindIsRefused`).
- *Every reportable match is reported.* A snippet whose rendered text still holds a matched text is
  refused and its finding dropped, as for a match of the word "chars", which its own mask contains
  (`Rendering.MaskRefusesItself`, `Counterexamples.CharsIsRefused`). The rendered text is a function of
  the content and its matches, so `Detection.Detect` names the dropped matches exactly. For matched
  texts without brackets or ellipses, a match is dropped if and only if one of them is held by one part
  of its snippet alone, a mask or a collapsed stretch (`Refusal.RefusedByPart`). If moreover each is one
  word and no number short enough to be a count, or has a line break or a run of blanks, and no end that
  the mask reveals can begin another copy of its text, that part can only be the match's own mask
  (`Refusal.RefusedIff`, `Detection.CandidateRefusedIff`). Single blanks make the difference: a match
  "ab cd" with "ab  cd" in its context is dropped too (`Counterexamples.CollapseCompletes`).
- *Creating a suppression covers what it matches.* A path glob leaves findings alone that are not open
  (`Suppressions.CreateHidesIff`, `Counterexamples.GlobLeavesJudged`). An inline comment says so; the
  module's docstring does not.
- *A hidden finding is matched by its suppression.* A sighting never refreshes the stored rule id, so
  this needs one rule per fingerprint (`LifecycleTheorems.SightingJustifiedIff`,
  `Counterexamples.RuleMismatchHides`).
- *The query selects exactly the findings with a target.* A dangling owner is the exception; a foreign
  key excludes it (`Escalation.TargetReadingsAgreeIff`, `Counterexamples.DanglingOwnerDisagrees`).
- *Callbacks converge.* The state does when the latest callbacks agree on it (`Callback.ConvergesIff`);
  the external id of a stale callback is lost (`Callback.IdConvergesIff`,
  `Counterexamples.StaleIdIsLost`), and an undated callback can move the recorded time back
  (`Callback.MovesBackIff`, `Counterexamples.UndatedMovesBack`).

## Assumptions

- Connectors publish a checkpoint per yielded unit, naming exactly the units before it; the stored
  position is modelled as the number of units it covers.
- Database ids are fresh and unique; fresh ids, creation times, clocks and arrival times are parameters.
- One rule per fingerprint, under either pepper, in the lifecycle runs.
- A source's content is the same for every attempt at a task; a checkpoint that names a page no longer
  listed skips everything (`FakeConnector.UnknownCheckpointSkipsAll`).
- Clocks do not go back in the limiters' runs, in the order in which the calls take the limiter's lock;
  both limiters read the clock before they take it.
- A set of matched texts is gone through in the order in which the texts first appear. Another order
  can only change the order of masks that start together.
- Suppressions are read in one fixed table order; no result depends on which one.
- Each request handler is atomic. The terminal route reads the counter before it takes the scan lock and
  does not check it again when it claims the result; the model takes both as one step.

## Model

| member | source | states |
|---|---|---|
| `ProtocolInvariant.StepKeeps` | apps/api/src/iceberg_api/engines/routes.py:381-698 | every step of the protocol (lease, failing lease, unit, flush, redelivery, delivery, loss, duplicate, reply, crash, reclaim, cancel, terminal submission) keeps the invariant that ties the task row, every ledger, every message and every reply to the work |
| `ProtocolInvariant.RunKeeps` | apps/api/src/iceberg_api/engines/routes.py:381-698 | so does every run from a fresh task |
| `ProtocolInvariant.AdvanceKeeps` | apps/api/src/iceberg_api/scans/service.py:328-371 | an accepted batch moves findings, coverage, tallies, counter and position together |
| `ProtocolInvariant.Delivered` | apps/api/src/iceberg_api/engines/routes.py:435-455 | a delivery changes nothing, or is accepted as the next number, or is answered with the stored counter and changes nothing else |
| `ProtocolInvariant.ReplayKeeps` | apps/api/src/iceberg_api/engines/routes.py:435-455 | that answer keeps the invariant: it acknowledges only what is stored |
| `ProtocolInvariant.RedeliverKeeps` | apps/engine/src/iceberg_engine/runner.py:310-348 | sending the batch in flight again, verbatim, keeps the invariant |
| `ProtocolInvariant.LeaseKeeps` | apps/api/src/iceberg_api/scans/service.py:213-270 | a new attempt starts with the stored counter and an empty ledger, at the stored position or, when it cannot read that, from the top |
| `ProtocolInvariant.LeaseFailsKeeps` | apps/api/src/iceberg_api/engines/routes.py:284-335 | a lease that fails after its claim ends the task, starts no attempt and keeps the invariant |
| `ProtocolInvariant.ReclaimKeeps` | apps/api/src/iceberg_api/scans/service.py:615-674 | a lapsed lease returns the task to the queue with its position and totals intact |
| `ProtocolTheorems.AcceptedWork` | apps/engine/src/iceberg_engine/runner.py:206-348 | in every reachable state the accepted units are the prefix the stored position names after one more copy of the prefix of every position the run gave up; tallies and counter are those of exactly that work |
| `ProtocolTheorems.ExactlyOnceIff` | apps/api/src/iceberg_api/engines/routes.py:342-352 | the accepted units are exactly the prefix the stored position names if and only if the run gave up no position past the start: no lease dropped one, and no engine that ignored one had a message accepted |
| `ProtocolTheorems.ResumingNeverRestarts` | apps/api/src/iceberg_api/engines/routes.py:125-141 | only leases give positions up: when every lease resumes, the accepted units are that prefix |
| `ProtocolTheorems.DiscardedAreDrops` | apps/api/src/iceberg_api/scans/service.py:374-384 | the positions on record as given up are exactly those the steps of the run gave up |
| `ProtocolTheorems.DroppedIffRestarts` | apps/api/src/iceberg_api/scans/service.py:374-384 | the accepted units hold more than that prefix exactly when one of them is past the start |
| `ProtocolTheorems.CoverageSurvivesIff` | apps/api/src/iceberg_api/engines/routes.py:284-335 | the stored report is that of everything accepted if and only if no lease failed after its claim on a task with accepted operations |
| `ProtocolTheorems.StoredReportValidates` | apps/api/src/iceberg_api/scans/coverage.py:277-284 | while a task is live its accumulated report validates, so reading it back drops nothing |
| `ProtocolTheorems.BatchFillsTheGap` | apps/engine/src/iceberg_engine/runner.py:278-308 | in every run, adding the batch in flight to what the ledger says is held gives the coverage, tallies and candidates of the boundary it was cut at |
| `ProtocolTheorems.CompletedMeansInspected` | apps/api/src/iceberg_api/engines/routes.py:71-122 | a task recorded as completed had every unit accepted, and no accepted message of any attempt reported a failed object or a scope gap |
| `ProtocolTheorems.CompletedExactlyOnce` | apps/api/src/iceberg_api/engines/routes.py:581-626 | without a restart a completed task stores the report and tallies of one uninterrupted fetch |
| `ProtocolTheorems.FindingsExactlyOnce` | apps/engine/src/iceberg_engine/runner.py:278-308 | every candidate of the accepted units is ingested or counted as pre-filtered, once, and in order when no lease pre-filters |
| `ProtocolTheorems.FindingsConserved` | apps/engine/src/iceberg_engine/runner.py:401-428 | findings plus pre-filtered equals candidates for any list of accepted messages |
| `ProtocolTheorems.LedgerNeverPassesStore` | apps/engine/src/iceberg_engine/runner.py:310-348 | every running ledger equals the sum of its attempt's accepted batches up to its counter, and the store is at most the one batch in flight ahead of the holder |
| `ProtocolTheorems.BatchesAreWellFormed` | apps/api/src/iceberg_api/engines/schemas.py:437-463 | every batch on the wire passes every validator, except exactly when its number exceeds the cap |
| `ProtocolTheorems.ReplayAcknowledgesAnotherBatch` | apps/api/src/iceberg_api/engines/routes.py:404-455 | the fence is the engine id: a second batch of the same engine and number is acknowledged although nothing of it is stored |
| `Batcher.EngineBatcher.constructor` | apps/engine/src/iceberg_engine/runner.py:431-459 | a batcher starts with the lease's counter, nothing sent and a full interval |
| `Batcher.EngineBatcher.Due` | apps/engine/src/iceberg_engine/runner.py:263-276 | when a flush is due: only with something new to send, before the deadline only for a full batch, and at the deadline exactly when something is unsent |
| `Batcher.EngineBatcher.ComposeBatch` | apps/engine/src/iceberg_engine/runner.py:278-308 | the batch in flight carries the next number and exactly what the pending boundary adds to the ledger |
| `Batcher.EngineBatcher.Deliver` | apps/engine/src/iceberg_engine/runner.py:310-348 | the ledger settles on the answer; without one the batch stays in flight unchanged |
| `Batcher.EngineBatcher.Flush` | apps/engine/src/iceberg_engine/runner.py:462-483 | redelivers an unacknowledged batch verbatim or composes the pending one, and rearms the interval either way |
| `Runner.FetchOutcome.RecordAll` | packages/connectors/src/iceberg_connectors/protocol.py:368-455 | what a fetch records leaves its tallies and its coverage those of the recorded history |
| `Runner.ReadUnits` | apps/engine/src/iceberg_engine/runner.py:743-793 | the loop over the yielded units, flushing before each unit and marking the boundary behind it, makes exactly the model's turns, whatever the clock shows and the network answers |
| `Runner.Fetch` | apps/engine/src/iceberg_engine/runner.py:708-825 | a fetch from its lease ends with the model's terminal report however it ends, and with none once it is cancelled |
| `RunnerTheorems.TurnIsSteps` | apps/engine/src/iceberg_engine/runner.py:743-793 | a turn of the loop is a stretch of a run, whatever steps everybody else takes before and during it |
| `RunnerTheorems.LedgerStaysOk` | apps/engine/src/iceberg_engine/runner.py:206-348 | after any number of turns the runner's ledger is what the row accepted from it, and the row is at most the batch in flight ahead |
| `RunnerTheorems.FetchIsARun` | apps/engine/src/iceberg_engine/runner.py:708-825 | a whole fetch is a stretch of a run; the report it hands back is on the wire of a reachable state and describes exactly the units and records it is about |
| `Batcher.TaskRow.AdvanceCheckpoint` | apps/api/src/iceberg_api/scans/service.py:328-371 | claims one batch number, once, for the lease holder of a live task without a result |
| `Batcher.TaskRow.GrantLease` | apps/api/src/iceberg_api/engines/routes.py:342-352 | the row after a lease: a position that no longer applies is dropped, coverage and counter are kept |
| `Batcher.TaskRow.FailLease` | apps/api/src/iceberg_api/engines/routes.py:284-335 | the row after a failing lease: the accumulated report is written over, unlike on cancellation |
| `Batcher.TaskRow.AcceptProgress` | apps/api/src/iceberg_api/engines/routes.py:381-494 | the row and the reply after a progress submission are those of the protocol model, replays and refusals included |
| `Batcher.TaskRow.ClaimResult` | apps/api/src/iceberg_api/scans/service.py:304-325 | one submission owns the task's results |
| `Batcher.TaskRow.AcceptResults` | apps/api/src/iceberg_api/engines/routes.py:497-698 | the row after a terminal submission is that of the protocol model; a different counter is refused |
| `Coverage.DeltaIsLaterWork` | apps/engine/src/iceberg_engine/runner.py:153-191 | the difference of two reports is the report of the later operations, with the references that still fit |
| `Coverage.MergeOfDeltaIsWhole` | apps/api/src/iceberg_api/scans/coverage.py:36-95 | accumulating a difference on what was stored gives the report of all the work, past the reference cap and with truncated units |
| `Coverage.MergePayloads` | apps/api/src/iceberg_api/scans/coverage.py:36-95 | reports of consecutive work accumulate to the report of all of it |
| `Coverage.FirstDeltaIsPayload` | apps/engine/src/iceberg_engine/runner.py:123-143 | a submission with nothing acknowledged before it carries the whole report |
| `Coverage.OutcomesReconcile` | packages/connectors/src/iceberg_connectors/protocol.py:239-343 | for any operations, observed is scanned plus skipped plus failed, and gaps are skips, failures and scope gaps |
| `Coverage.DeltaAcceptedIff` | apps/api/src/iceberg_api/engines/schemas.py:258-376 | a difference passes every validator if and only if its operations take back no more scans than they record and no retained object reference has the scope kind |
| `Coverage.DeltaOfWholeUnitsAccepted` | apps/api/src/iceberg_api/engines/schemas.py:319-376 | every difference cut at unit boundaries passes every validator |
| `Coverage.MidUnitCutRefused` | packages/connectors/src/iceberg_connectors/protocol.py:268-280 | a cut between a scan and its truncation is refused, which is why batches are cut at boundaries |
| `Coverage.PayloadAcceptedIff` | apps/api/src/iceberg_api/engines/schemas.py:301-376 | exactly when a whole report is accepted; an object operation under the scope kind is recorded and then refused |
| `Coverage.PayloadAccepted` | packages/connectors/src/iceberg_connectors/protocol.py:292-318 | reports of whole units are always accepted |
| `Coverage.PayloadOfTaskLoss` | apps/api/src/iceberg_api/scans/coverage.py:261-274 | the report of a single task-wide gap |
| `CoverageRecorder.TaskCoverage.ScannedFor` | packages/connectors/src/iceberg_connectors/protocol.py:239-242 | the counters, subtotals and retained references are those of the recorded history and one more object observed and scanned |
| `CoverageRecorder.TaskCoverage.SkippedFor` | packages/connectors/src/iceberg_connectors/protocol.py:244-254 | the counters, subtotals and retained references are those of the recorded history and one skip, refused for a reason that is not a skip |
| `CoverageRecorder.TaskCoverage.FailedFor` | packages/connectors/src/iceberg_connectors/protocol.py:256-266 | the counters, subtotals and retained references are those of the recorded history and one failure, refused for a reason that is not a failure |
| `CoverageRecorder.TaskCoverage.ScannedButIncomplete` | packages/connectors/src/iceberg_connectors/protocol.py:268-280 | the counters, subtotals and retained references are those of the recorded history and a scan turned into a failure, refused likewise |
| `CoverageRecorder.TaskCoverage.ScopeGapFor` | packages/connectors/src/iceberg_connectors/protocol.py:286-290 | the counters, subtotals and retained references are those of the recorded history and a scope gap of the fetch |
| `CoverageRecorder.TaskCoverage.TaskGapFor` | packages/connectors/src/iceberg_connectors/protocol.py:286-290 | the counters, subtotals and retained references are those of the recorded history and a gap of the whole task |
| `CoverageRecorder.TaskCoverage.RecordGap` | packages/connectors/src/iceberg_connectors/protocol.py:324-343 | a reference is kept while there is room and counted as omitted otherwise |
| `CoverageRecorder.TaskCoverage.AsPayload` | packages/connectors/src/iceberg_connectors/protocol.py:292-318 | the payload is the report of the recorded history |
| `FakeConnector.Fetch` | packages/connectors/src/iceberg_connectors/fake.py:130-193 | the loop yields the remaining pages' units in order, each paired with the checkpoint naming the units before it |
| `FakeConnector.ResumeYieldsTheRest` | packages/connectors/src/iceberg_connectors/testing.py:97-143 | with distinct ids, resuming from the checkpoint visible when a unit arrives yields exactly that unit and all after it, records included |
| `FakeConnector.ResumedCoverageAddsUp` | packages/connectors/src/iceberg_connectors/testing.py:145-154 | coverage up to a boundary plus that of the resumed run is that of the full run, skips and failures included |
| `FakeConnector.UnknownCheckpointSkipsAll` | packages/connectors/src/iceberg_connectors/fake.py:141-150 | a checkpoint that names no listed page skips every page |
| `FakeConnector.VersionDecidesTheStart` | packages/connectors/src/iceberg_connectors/fake.py:195-205 | a fetch starts where the protocol model has the attempt start: at the leased position, or from the top under an unknown checkpoint version |
| `FakeConnector.PagesMakeWork` | packages/connectors/src/iceberg_connectors/fake.py:141-185 | page lists are work the protocol theorems apply to |
| `FakeConnector.CompletedScanReadEveryPage` | packages/connectors/src/iceberg_connectors/fake.py:130-193 | a completed scan of pages without a restart stored the coverage of one pass, and every page was skipped by policy or read to its end |
| `Spans.Straddler` | packages/core/src/iceberg_core/redaction.py:224-230 | the copy cut by a boundary, or none exactly when no copy is cut |
| `Spans.Occurrences` | packages/core/src/iceberg_core/redaction.py:324-340 | exactly the copies reaching a region, overlapping ones included, in order |
| `Redaction.ContextWindow` | packages/core/src/iceberg_core/redaction.py:127-138 | a window inside the text around the target |
| `Redaction.MatchedTexts` | packages/core/src/iceberg_core/redaction.py:186-192 | exactly the distinct texts of the matches longer than one character |
| `Redaction.ClipEnd` | packages/core/src/iceberg_core/redaction.py:201-212 | the right edge moves to the last position that cuts no copy, or to the target |
| `Redaction.ClipStart` | packages/core/src/iceberg_core/redaction.py:213-220 | the left edge moves to the first position that cuts no copy, or to the target |
| `Redaction.ClipToSecretBoundaries` | packages/core/src/iceberg_core/redaction.py:195-221 | the widest window around the target whose own edges cut no copy; it always ends |
| `Redaction.Merged` | packages/core/src/iceberg_core/redaction.py:313-321 | non-touching spans in order covering exactly the same positions |
| `Redaction.Uncovered` | packages/core/src/iceberg_core/redaction.py:343-359 | exactly the positions of a copy that are in the window and not covered |
| `Redaction.Round` | packages/core/src/iceberg_core/redaction.py:283-303 | one round adds exactly the exposed positions of copies that touch a mask |
| `Redaction.CoverPartialCopies` | packages/core/src/iceberg_core/redaction.py:274-310 | a fixpoint is reached within window length plus one rounds, so the final raise is unreachable; every copy touching a mask is masked throughout the window |
| `Redaction.LeastMasking` | packages/core/src/iceberg_core/redaction.py:274-310 | nothing is masked without need: every closed set holding the plan holds the result |
| `Redaction.Neighbours` | packages/core/src/iceberg_core/redaction.py:245-262 | the other matches of the window, split around the target, position by position |
| `Redaction.MaskPlan` | packages/core/src/iceberg_core/redaction.py:233-271 | the plan hides the target and every match reaching the window, leaves no half copy, and hides no more than that |
| `Redaction.Layout` | packages/core/src/iceberg_core/redaction.py:387-404 | shown is exactly what the window holds and the plan does not cover; each stretch fills its gap; masks keep their order |
| `Redaction.ShownEdgesClean` | packages/core/src/iceberg_core/redaction.py:422-446 | no edge of a shown stretch cuts a copy |
| `Redaction.NoBisectedSecret` | packages/core/src/iceberg_core/redaction.py:422-446 | the final check passes exactly when no edge of a shown stretch cuts a copy |
| `Redaction.WholeCopiesOnly` | packages/core/src/iceberg_core/redaction.py:422-446 | a copy that reaches a shown stretch lies wholly inside it |
| `Redaction.LayOutSnippet` | packages/core/src/iceberg_core/redaction.py:160-182 | for every text and match set neither the masking nor the edge check fails; secrets, window and parts are functions of the inputs; nothing shown belongs to a match, every shown copy is whole, everything that need not be hidden is shown, the masks are those of the plan in order, and each stretch ends at the mask that follows it |
| `Rendering.Revealable` | packages/core/src/iceberg_core/redaction.py:96-102 | never more than a third of a secret is revealed |
| `Rendering.BuildReplacements` | packages/core/src/iceberg_core/redaction.py:366-379 | the texts to scrub: longest first, one entry per text, and exactly the matched texts longer than a character |
| `Rendering.ReplacementsAre` | packages/core/src/iceberg_core/redaction.py:366-379 | each with the default mask, or the rule's for the target's own text |
| `Rendering.RenderContext` | packages/core/src/iceberg_core/redaction.py:407-412 | context after scrub and collapse, with no white space but single blanks |
| `Rendering.Render` | packages/core/src/iceberg_core/redaction.py:362-384 | the snippet's text is the function of text, layout and matches that the refusal results are about |
| `Rendering.HoldsPlaintext` | packages/core/src/iceberg_core/redaction.py:415-419 | finds a matched text in the snippet exactly when one occurs |
| `Rendering.RedactSnippet` | packages/core/src/iceberg_core/redaction.py:141-183 | the snippet, a function of the inputs, is refused exactly when its rendered text holds a matched text, and what is stored, cut to length, holds none |
| `Rendering.MaskRefusesItself` | packages/core/src/iceberg_core/redaction.py:415-419 | a matched text that occurs in the target's mask makes the snippet refused in every context |
| `Scrub.ScrubTakesOut` | packages/core/src/iceberg_core/redaction.py:407-412 | no listed text survives the scrub unless a mask itself can spell it (a bracket, an ellipsis, a marker), whatever order and overlaps the copies of the listed texts have |
| `Scrub.ReplaceKeepsOut` | packages/core/src/iceberg_core/redaction.py:407-412 | replacing one text by its mask brings no such text into being, nor across what precedes it |
| `Scrub.ScrubStaysFree` | packages/core/src/iceberg_core/redaction.py:407-412 | nor across what follows, markers included |
| `Scrub.CollapseKeepsOut` | packages/core/src/iceberg_core/redaction.py:407-412 | collapsing white space brings no text without white space into being, inside or across the end |
| `Redaction.PlanApart` | packages/core/src/iceberg_core/redaction.py:245-271 | the target's mask overlaps no other mask |
| `Refusal.HeldIff` | packages/core/src/iceberg_core/redaction.py:362-412 | a text without brackets or ellipses is in a snippet exactly when one part holds it in its place: a mask, or a scrubbed and collapsed stretch with what the target's mask reveals beside it |
| `Refusal.RefusedByPart` | packages/core/src/iceberg_core/redaction.py:141-183 | for such texts, single blanks and numbers included, a snippet is refused if and only if one part of it holds a matched text in its place |
| `Refusal.BrokenIsOut` | packages/core/src/iceberg_core/redaction.py:407-419 | a text with a line break or a run of blanks never occurs in a snippet whose mask reveals no white space |
| `Refusal.RefusedIff` | packages/core/src/iceberg_core/redaction.py:141-183 | for words and texts with such white space, a snippet is refused if and only if a matched text occurs in the target's own mask |
| `Detection.CapKeepsStrongest` | packages/detect/src/iceberg_detect/engine.py:174-186 | the cap keeps exactly the limit, in document order, and nothing dropped outranks what is kept |
| `Detection.StrongestOfEachOverlap` | packages/detect/src/iceberg_detect/engine.py:203-225 | the kept matches are disjoint and in order, equal the greedy reference, and each dropped one overlaps a kept one it does not beat |
| `Detection.DroppedLoses` | packages/detect/src/iceberg_detect/engine.py:203-225 | in the greedy reference a dropped match loses to a kept one |
| `Detection.SpansReaching` | packages/detect/src/iceberg_detect/engine.py:189-200 | the bisected slice returns exactly the brute-force overlaps of the window |
| `Detection.Widest` | packages/detect/src/iceberg_detect/engine.py:134-136 | the greatest width, zero for none |
| `Detection.Reportable` | packages/detect/src/iceberg_detect/engine.py:104-124 | what survives threshold, cap and collapse, with each step's losses; every competitor is kept or beaten |
| `Detection.Snippet` | packages/detect/src/iceberg_detect/engine.py:137-158 | the stored snippet is that of the candidate against every match that reaches its window, or none exactly when that one holds a matched text |
| `Detection.DraftShowsNone` | packages/detect/src/iceberg_detect/engine.py:137-158 | a snippet shows no position of any match of the unit |
| `Detection.StoredOrRefused` | packages/detect/src/iceberg_detect/engine.py:148-170 | every draft is stored or dropped, and no stored text holds a matched text of its draft |
| `Detection.CandidateRefusedIff` | packages/detect/src/iceberg_detect/engine.py:148-158 | in a unit of plain texts a match is dropped if and only if its own mask holds the text of a match in its window |
| `Detection.NoneRefused` | packages/detect/src/iceberg_detect/engine.py:148-158 | so when no mask of a chosen match holds one, every chosen match is reported |
| `Detection.Detect` | packages/detect/src/iceberg_detect/engine.py:93-171 | a chosen match is dropped exactly when its snippet, a function of text and matches, holds a matched text; reports show and store nothing of any match and are disjoint, the chosen ones represent every competitor, and every candidate is accounted for |
| `Sweep.Query` | apps/api/src/iceberg_api/pagination.py:68-88 | the first rows of the filter after the cursor in (created_at, id) order |
| `Sweep.InBatches` | apps/api/src/iceberg_api/suppressions.py:319-346 | for any batch size the sweep visits every row that matched at the start exactly once, in order, and ends, although updates take rows out of the filter |
| `Sweep.PageExtends` | apps/api/src/iceberg_api/suppressions.py:330-345 | after a page exactly the matching rows up to its last one have been visited |
| `Sweep.AheadIsUntouched` | apps/api/src/iceberg_api/suppressions.py:319-346 | updates behind the cursor change nothing the query will still select |
| `Findings.FirstMatchIs` | packages/core/src/iceberg_core/suppression.py:99-112 | a match is returned exactly when some rule matches, and it is the first |
| `Findings.ApplicableIff` | apps/api/src/iceberg_api/suppressions.py:63-85 | the applicable rules are the live ones of the source and the global ones |
| `Suppressions.CreateHidesIff` | apps/api/src/iceberg_api/suppressions.py:144-195 | exactly which findings are hidden after a create: a path glob leaves findings alone that are not open |
| `Suppressions.ApplyToExisting` | apps/api/src/iceberg_api/suppressions.py:144-195 | the batched create equals updating every row and returns how many findings it hid |
| `Suppressions.ReleaseCoveredBy` | apps/api/src/iceberg_api/suppressions.py:198-249 | the cached delete loop equals deciding each finding on its own, and counts exactly the released ones |
| `Suppressions.ReleaseLapsed` | apps/api/src/iceberg_api/suppressions.py:252-316 | the batched lapse sweep equals deciding each finding on its own and returns how many came back |
| `Suppressions.DeleteJustifies` | apps/api/src/iceberg_api/suppressions.py:198-249 | a finding of the deleted suppression stays hidden exactly when another live one covers it, and names that one |
| `Suppressions.LapseJustifies` | apps/api/src/iceberg_api/suppressions.py:252-316 | a hidden finding stays hidden exactly when a live suppression covers it |
| `Ingest.LoadFindings` | apps/api/src/iceberg_api/engines/ingest.py:216-246 | the chunked load answers for every identity of the batch what the table would |
| `Ingest.IngestNext` | apps/api/src/iceberg_api/engines/ingest.py:102-169 | one turn through the live map is one turn through the table, and the map stays in step |
| `Ingest.IngestFindings` | apps/api/src/iceberg_api/engines/ingest.py:57-192 | batch ingest leaves the table and tallies of the per-payload reference, for repeats, re-keys and refused re-keys |
| `Ingest.IngestKeepsUnique` | apps/api/src/iceberg_api/engines/ingest.py:102-169 | fingerprints stay unique per source |
| `Ingest.BatchContinues` | apps/api/src/iceberg_api/engines/ingest.py:292-382 | through a batch no judgement is overwritten, a resolution only gives way to open, and a set or pinned owner is not moved |
| `Ingest.RefusedRekeyStoresApart` | apps/api/src/iceberg_api/engines/ingest.py:108-128 | a refused re-key leaves the old row alone and stores a new one |
| `Ingest.RepeatFindsTheRow` | apps/api/src/iceberg_api/engines/ingest.py:148-169 | a repeated payload adds no row, no reopen and no re-key |
| `Trail.PatchedTraces` | apps/api/src/iceberg_api/findings/triage.py:70-136 | an accepted patch sets what it names and nothing else, pins any owner it names, and every event it writes is true |
| `Trail.RefreshedTraces` | apps/api/src/iceberg_api/engines/ingest.py:292-382 | a sighting reopens what was resolved, keeps judgements, and routes only an unowned, unpinned finding |
| `Trail.RouteTraces` | apps/api/src/iceberg_api/findings/ownership.py:121-164 | routing keeps the trail and leaves a pinned or owned finding exactly as it is |
| `Trail.AutoResolvedTraces` | apps/api/src/iceberg_api/scans/reconcile.py:107-138 | auto-resolution touches only open findings and leaves a true trail |
| `Trail.ReopenBetweenJudgements` | apps/api/src/iceberg_api/findings/triage.py:34-41 | two judgements in a trail are always separated by a reopen |
| `Trail.ResolutionExactlyWhenResolved` | apps/api/src/iceberg_api/findings/triage.py:139-166 | a resolution is on record exactly while the finding is resolved |
| `Trail.HandPins` | apps/api/src/iceberg_api/findings/triage.py:187-219 | an owner set by hand pins for good |
| `Trail.OnlyHandPins` | apps/api/src/iceberg_api/findings/ownership.py:135-164 | and nothing else pins |
| `Trail.OwnerMovesOnlyByHand` | apps/api/src/iceberg_api/findings/ownership.py:121-164 | no system event moves an owner that is set or pinned |
| `Lifecycle.StepKeeps` | apps/api/src/iceberg_api/suppressions.py:88-316 | every create, delete, lapse, submission, patch and reconciliation keeps the register's invariant |
| `Lifecycle.WrittenOk` | apps/api/src/iceberg_api/engines/ingest.py:374-379 | the row a payload writes names a suppression in force that matches the row itself |
| `Lifecycle.TriagedOk` | apps/api/src/iceberg_api/findings/triage.py:92-136 | a patch keeps the invariant whether it is applied or refused, and a refused one changes nothing |
| `LifecycleTheorems.RunKeeps` | apps/api/src/iceberg_api/suppressions.py:88-316 | the invariant holds in every run |
| `LifecycleTheorems.HiddenIsJustified` | apps/api/src/iceberg_api/suppressions.py:88-141 | in every run a hidden finding names an existing suppression that applies to its source and matches it |
| `LifecycleTheorems.LapseLeavesOnlyLive` | apps/api/src/iceberg_api/suppressions.py:252-316 | after a lapse sweep that suppression is live, and a finding is released exactly when no live one covers it |
| `LifecycleTheorems.DeleteReleasesIff` | apps/api/src/iceberg_api/findings/suppression_routes.py:137-158 | deleting releases exactly the findings no other live suppression covers |
| `LifecycleTheorems.SightingJustifiedIff` | apps/api/src/iceberg_api/engines/ingest.py:99-105 | the guarantee breaks exactly when a rule-wide suppression matches a payload whose stored row has another rule |
| `LifecycleTheorems.RunFollows` | apps/api/src/iceberg_api/findings/ownership.py:121-164 | over every run a finding is never lost, its trail only grows, a set or pinned owner moves only by a patch that names one, and a judgement only by a patch |
| `LifecycleTheorems.TrailTellsAll` | apps/api/src/iceberg_api/findings/triage.py:139-219 | in every run replaying the events gives state, resolution, owner, pin and assignee, and judgements are separated by reopens |
| `FindingStore.Store.CreateSuppression` | apps/api/src/iceberg_api/findings/suppression_routes.py:89-124 | the tables after the create transaction are those of the lifecycle model, whose invariant holds |
| `FindingStore.Store.DeleteSuppression` | apps/api/src/iceberg_api/findings/suppression_routes.py:137-158 | the tables after the delete transaction; an unknown id changes nothing are those of the lifecycle model, whose invariant holds |
| `FindingStore.Store.LapseSuppressions` | apps/api/src/iceberg_api/suppressions.py:252-316 | the tables after the lapse sweep are those of the lifecycle model, whose invariant holds |
| `FindingStore.Store.Submit` | apps/api/src/iceberg_api/engines/ingest.py:57-192 | the tables after a submission, with its tallies are those of the lifecycle model, whose invariant holds |
| `FindingStore.Store.Triage` | apps/api/src/iceberg_api/findings/triage.py:70-136 | the tables after a patch, applied as a whole or refused as a whole exactly for an illegal move or missing evidence are those of the lifecycle model, whose invariant holds |
| `FindingStore.Store.Reconcile` | apps/api/src/iceberg_api/scans/reconcile.py:54-138 | the tables after reconciliation of a completed scan, with its count of resolutions are those of the lifecycle model, whose invariant holds |
| `FindingStore.ResolveMissing` | apps/api/src/iceberg_api/scans/reconcile.py:107-138 | one conditional update at a time resolves exactly the missing findings and counts them |
| `Escalation.FilterReadingsAgree` | apps/api/src/iceberg_api/notifications/dispatch.py:132-172 | the query's and the code's readings of a channel filter agree |
| `Escalation.TargetReadingsAgreeIff` | apps/api/src/iceberg_api/notifications/dispatch.py:175-204 | the query's predicate holds exactly when the target list is non-empty, except for a dangling owner that some channel would hear about |
| `Escalation.EscalateOverdue` | apps/api/src/iceberg_api/notifications/dispatch.py:262-363 | a beat announces the oldest page of the backlog to exactly its targets |
| `Escalation.BeatRetiresItsPage` | apps/api/src/iceberg_api/notifications/dispatch.py:290-334 | a beat takes exactly its page, the limit or all of it, off the backlog |
| `Escalation.BacklogDrains` | apps/api/src/iceberg_api/notifications/dispatch.py:290-334 | a fixed backlog drains by the limit per beat until it is gone |
| `Escalation.EachIsAnnounced` | apps/api/src/iceberg_api/notifications/dispatch.py:366-384 | each finding of the backlog waits its turn and is then announced to its targets and no other channel |
| `Escalation.NothingIsQueuedTwice` | apps/api/src/iceberg_api/notifications/dispatch.py:276-280 | over every run of beats, whatever changes between them, no channel, finding and deadline is queued twice |
| `Callback.ConvergesIff` | apps/api/src/iceberg_api/handoff/callback.py:154-203 | dated callbacks end in the same state in every order exactly when those with the latest time agree |
| `Callback.DistinctTimesConverge` | apps/api/src/iceberg_api/handoff/callback.py:154-203 | with distinct times every order ends in the state of the latest |
| `Callback.MovesBackIff` | apps/api/src/iceberg_api/handoff/callback.py:162-190 | the recorded time moves back exactly for an undated callback that arrived earlier than it |
| `Callback.IdConvergesIff` | apps/api/src/iceberg_api/handoff/callback.py:191-196 | the external id of dated callbacks converges exactly when none carries one, or one with the latest time does and those of them that do carry the same after clipping |
| `Callback.DistinctTimesIdConverges` | apps/api/src/iceberg_api/handoff/callback.py:191-196 | with distinct times: when none carries one or the latest does |
| `Callback.IdNeverBlanked` | apps/api/src/iceberg_api/handoff/callback.py:191-196 | a recorded id is never blanked |
| `Callback.Handover.Record` | apps/api/src/iceberg_api/handoff/callback.py:136-203 | the link after a callback, stale ones included; dismissals untouched |
| `Callback.Handover.RecordAll` | apps/api/src/iceberg_api/handoff/callback.py:136-203 | the link after any run of callbacks |
| `Callback.Handover.Dismiss` | apps/api/src/iceberg_api/handoff/callback.py:257-266 | a dismissal silences the present state whatever the finding becomes |
| `Callback.DismissalOutlastsOldNews` | apps/api/src/iceberg_api/handoff/callback.py:217-254 | after it no run of repeated or out-of-order callbacks raises the conflict again |
| `Callback.NewsReopensIff` | apps/api/src/iceberg_api/handoff/callback.py:217-254 | the next callback raises it exactly when it is not stale, names another state and disagrees with the finding |
| `Fingerprint.RoundTrip` | packages/core/src/iceberg_core/fingerprint.py:122-130 | a decoder recovers the fields from their encoding, whatever bytes they contain |
| `Fingerprint.DecodeIff` | packages/core/src/iceberg_core/fingerprint.py:122-130 | the decoder accepts exactly the encodings |
| `Fingerprint.CanonicalizeIsInjective` | packages/core/src/iceberg_core/fingerprint.py:122-130 | no two field lists share an encoding |
| `Fingerprint.SameMessageIff` | packages/core/src/iceberg_core/fingerprint.py:65-66 | two findings share a message exactly when every normalised component agrees, a missing and an empty sub-resource counting as one |
| `Limiters.MinuteLimiter.Acquire` | apps/engine/src/iceberg_engine/validation.py:178-187 | expires, then grants exactly while there is budget; other validators are untouched |
| `Limiters.GrantedIff` | apps/engine/src/iceberg_engine/validation.py:178-187 | a call is granted exactly when fewer than its limit were granted in the minute before it |
| `Limiters.AtMostLimitPerMinute` | apps/engine/src/iceberg_engine/validation.py:170-187 | no 60-second interval holds more grants than the limit |
| `Limiters.InMemoryStore.Count` | apps/api/src/iceberg_api/ratelimit.py:95-114 | the decision follows from the hits counted in the open window |
| `Limiters.SweepNeverDecides` | apps/api/src/iceberg_api/ratelimit.py:102-106 | a swept store answers every later hit as one that never forgets |
| `Limiters.AllowedIff` | apps/api/src/iceberg_api/ratelimit.py:95-114 | a hit is allowed exactly when fewer than its limit came before it in its aligned window |
| `Limiters.FirstHitsAreAllowed` | apps/api/src/iceberg_api/ratelimit.py:95-114 | in every aligned window exactly the first hits up to the limit are allowed |
| `Limiters.AtMostTwiceTheLimit` | apps/api/src/iceberg_api/ratelimit.py:63-72 | no interval as long as a window sees more than twice the limit |
| `Witnesses.ConfigurationChangeRestarts` | apps/api/src/iceberg_api/engines/routes.py:342-352 | a legal run in which the API drops a position past the start |
| `Witnesses.VersionChangeCountsTwice` | packages/connectors/src/iceberg_connectors/fake.py:195-205 | a legal run without any such drop in which the first unit is stored and counted twice |
| `Witnesses.FailedLeaseLosesCoverage` | apps/api/src/iceberg_api/engines/routes.py:284-335 | a legal run in which a failing lease leaves a report of nothing read over a stored batch |
| `Counterexamples.AcknowledgedButNotStored` | apps/api/src/iceberg_api/engines/routes.py:435-455 | two batches under one number: the second is acknowledged and its finding is stored nowhere |
| `Counterexamples.ScopeKindIsRefused` | apps/api/src/iceberg_api/engines/schemas.py:301-317 | an allowed skip under the scope kind whose report is refused |
| `Counterexamples.RuleMismatchHides` | apps/api/src/iceberg_api/engines/ingest.py:374-379 | a rule-wide suppression hides a stored finding that has another rule |
| `Counterexamples.GlobLeavesJudged` | apps/api/src/iceberg_api/suppressions.py:172-180 | a glob that matches everything leaves a judged finding in view |
| `Counterexamples.DanglingOwnerDisagrees` | apps/api/src/iceberg_api/notifications/dispatch.py:190-204 | an unknown owner for which the query and the target list disagree |
| `Counterexamples.StaleIdIsLost` | apps/api/src/iceberg_api/handoff/callback.py:172-196 | two callbacks whose order decides whether the external id is kept |
| `Counterexamples.UndatedMovesBack` | apps/api/src/iceberg_api/handoff/callback.py:188-190 | an undated callback that moves the recorded time back |
| `Counterexamples.CollapseCompletes` | packages/core/src/iceberg_core/redaction.py:407-419 | a match "ab cd" is refused though its mask does not hold it: two blanks in its context collapse to one |
| `Counterexamples.CharsIsRefused` | packages/core/src/iceberg_core/redaction.py:105-124 | a match of the word "chars" is refused because its own mask contains it |

## Left out

- Regex matching, entropy and confidence scoring: matches, scores and severities are given.
- Discovery tasks and cursor proposals: only fetch tasks are modelled.
- Authentication, authorisation and lease expiry times: a lease may lapse at any moment and the modelled requests are those that pass their route's access checks.
- Terminal replay responses: a second terminal submission changes nothing; the body it is answered with is not modelled.
- Refusal.RefusedIff: texts whose only white space is single blanks, texts with a bracket or an ellipsis, numbers short enough to be a count of characters, and a mask that reveals an end with which a copy of the text itself can begin; such texts can be completed by the collapse (`Counterexamples.CollapseCompletes`), by a neighbour's marker or by an overlapping copy, and for them the condition is that of `Refusal.RefusedByPart`.
- Refusal.RefusedByPart: texts with a bracket or an ellipsis, which the edges of two masks can spell together; for them the condition stays that the rendered text holds one.
- Refusal.HeldIff: the same texts.
- Detection.CandidateRefusedIff: the exceptions of `Refusal.RefusedIff`.
- Detection.NoneRefused: the exceptions of `Refusal.RefusedIff`.
- Scrub.ScrubTakesOut: texts with a bracket or an ellipsis, and pieces of a marker, which the masks themselves bring back.
- Scrub.ReplaceKeepsOut: the same texts.
- Scrub.ScrubStaysFree: texts with a bracket or an ellipsis.
- Scrub.CollapseKeepsOut: texts with white space, which the collapse can complete.
- Runner.Fetch: a connector that cannot resume runs without a batcher and reports once; only the fetch with a batcher is modelled. Handling a unit fails before its results are taken in, not halfway through taking them in.
- Checking a found secret with its provider before it is reported: the answers only decorate the payloads.
- Scan-level totals and the coverage manifest: sums over tasks of what is modelled per task.
- The unique index on system events per finding, kind and scan: a second reopen of one finding in one scan, which the database would refuse, is recorded here.
- Findings.GlobMatches: bracket classes of `fnmatchcase` are not modelled; no result depends on which globs match.
- Tag case folding and policy loading: routing rules arrive enabled, ordered and with folded tags.
- Suppressions.ReleaseLapsed: its per-source cache is not modelled; the equal cache of the delete loop is.
- LifecycleTheorems.RunFollows: ranges over the six modelled actions; retention, which purges auto-resolved findings, and foreign keys that set an owner or assignee to null without an event are not among them.
- LifecycleTheorems.TrailTellsAll: event retention, which shortens the trails of findings that are not open, is not among the modelled actions.
- Ingest.LoadFindings: fingerprints are looked up in an arbitrary order rather than sorted, which no result depends on.
- Keyed hashing and Unicode normalisation: normalisation is an arbitrary function, and distinct messages are where the result stops.
- The blank-field refusals of the fingerprint function: simple guards before the message is built.
- Redis-backed limiters, notification delivery and retries, remediation records, the web console and all transports.
