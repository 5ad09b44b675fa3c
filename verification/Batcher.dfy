/**
 The two stateful ends of the batch protocol as they are written: the engine's batcher and
 the API's task row. Each method is tied, call by call, to the function that makes the same move
 in the protocol model. `Runner` drives the batcher over a whole fetch.
 */
module Batcher {
  import opened Basics
  import opened Coverage
  import opened BatchProtocol

  const CHECKPOINT_BATCH_FINDINGS: int := 500
  const CHECKPOINT_BATCH_SECONDS: real := 30.0

  /** Whether a flush is worth a round trip, as the ledger, the deadline and the clock have it. */
  predicate IsDue(l: Ledger, checkpoint: Option<nat>, deadline: real, now: real) {
    if l.inFlight.Some? then now >= deadline
    else if l.pending.None? || checkpoint.None? || checkpoint == l.flushed then false
    else if l.pending.value.covered == l.sentCandidates
    then now >= deadline && l.pending.value.coverage != l.sentCoverage
    else l.pending.value.covered >= l.sentCandidates + CHECKPOINT_BATCH_FINDINGS || now >= deadline
  }

  /** An attempt that sent its batch, a new one or the one in flight, and heard this back or nothing. */
  function Exchanged(a: Attempt, engine: nat, answer: Option<nat>): Attempt
    requires a.ledger.inFlight.Some? || a.ledger.pending.Some?
  {
    var sent := if a.ledger.inFlight.Some? then a else Flushed(a, engine);
    if answer.None? then sent else Acknowledged(sent, answer.value)
  }

  /** `sentPos` and `abandoned` are history variables: they only record what a message is about. */
  class EngineBatcher {
    const engine: nat
    var sequence: nat
    var sentCandidates: nat
    var sentCoverage: Report
    var sentTally: Tally
    var pending: Option<Boundary>
    var flushed: Option<nat>
    var inFlight: Option<Batch>
    var deadline: real
    var sentPos: nat
    var abandoned: seq<nat>

    ghost function Model(): Ledger
      reads this
    {
      Ledger(sequence, sentCandidates, sentCoverage, sentTally, pending, flushed, inFlight)
    }

    /** The ledger and the history variables are those of an attempt. */
    ghost predicate Describes(a: Attempt)
      reads this
    {
      a.ledger == Model() && a.sentPos == sentPos && a.abandoned == abandoned
    }

    constructor (engine: nat, leasedSequence: nat, now: real, start: nat, abandoned: seq<nat>)
      ensures Model() == NewLedger(leasedSequence) && this.engine == engine
      ensures sentPos == start && this.abandoned == abandoned
      ensures deadline == now + CHECKPOINT_BATCH_SECONDS
    {
      this.engine := engine;
      sequence, sentCandidates := leasedSequence, 0;
      sentCoverage, sentTally := EmptyReport(), NoTally();
      pending, flushed, inFlight := None, None, None;
      sentPos, this.abandoned := start, abandoned;
      deadline := now + CHECKPOINT_BATCH_SECONDS;
    }

    /** Remember what is complete at the end of a unit; nothing is sent yet. */
    method MarkBoundary(covered: nat, coverage: Report, tally: Tally)
      modifies this`pending
      ensures Model() == RecordBoundary(old(Model()), Boundary(covered, coverage, tally))
    {
      pending := Some(Boundary(covered, coverage, tally));
    }

    /**
     Whether a round trip is worth it. A positive answer always leaves something to send:
     the unacknowledged batch, or a boundary together with a position not yet flushed; and an
     answer before the deadline needs a full batch of new candidates.
     */
    method Due(checkpoint: Option<nat>, now: real) returns (due: bool)
      ensures due == IsDue(Model(), checkpoint, deadline, now)
      ensures due && inFlight.None? ==>
                pending.Some? && checkpoint.Some? && checkpoint != flushed
      ensures due && now < deadline ==>
                inFlight.None? && pending.value.covered >= sentCandidates + CHECKPOINT_BATCH_FINDINGS
      ensures now >= deadline ==>
                (due <==> || inFlight.Some?
                          || (&& pending.Some? && checkpoint.Some? && checkpoint != flushed
                              && (pending.value.covered != sentCandidates ||
                                  pending.value.coverage != sentCoverage)))
    {
      if inFlight.Some? {
        return now >= deadline;
      }
      if pending.None? || checkpoint.None? || checkpoint == flushed {
        return false;
      }
      var unsent := pending.value.covered - sentCandidates;
      if unsent <= 0 && pending.value.covered == sentCandidates {
        return now >= deadline && pending.value.coverage != sentCoverage;
      }
      return unsent >= CHECKPOINT_BATCH_FINDINGS || now >= deadline;
    }

    /** Compose the pending boundary into the batch in flight. */
    method ComposeBatch(checkpoint: nat, findings: seq<Candidate>, suppressed: nat, origin: Origin)
      requires pending.Some?
      modifies this`inFlight
      ensures Model() == Compose(old(Model()), engine, checkpoint, findings, suppressed, origin)
    {
      var boundary := pending.value;
      var message := Progress(engine, sequence + 1, checkpoint, findings, suppressed,
                              Minus(boundary.tally, sentTally),
                              Delta(boundary.coverage, sentCoverage), origin);
      inFlight := Some(Batch(message, boundary));
    }

    /** Take in the API's answer; no answer leaves the batch in flight, verbatim. */
    method Deliver(answer: Option<nat>)
      requires inFlight.Some?
      modifies this
      ensures Model() == if answer.None? then old(Model()) else Settle(old(Model()), answer.value)
      ensures deadline == old(deadline)
      ensures var m := old(inFlight).value.message;
              if answer.None? || answer.value < m.sequence
              then sentPos == old(sentPos) && abandoned == old(abandoned)
              else sentPos == m.checkpoint && abandoned == []
    {
      if answer.None? {
        return;
      }
      var batch := inFlight.value;
      if answer.value < batch.message.sequence {
        inFlight := None;
        return;
      }
      sequence, flushed := answer.value, Some(batch.message.checkpoint);
      sentCoverage, sentTally := batch.boundary.coverage, batch.boundary.tally;
      sentCandidates := batch.boundary.covered;
      pending, inFlight := None, None;
      sentPos, abandoned := batch.message.checkpoint, [];
    }

    /** Pre-filter the candidates no batch has carried and make a batch of them. */
    method PrepareBatch(start: nat, position: nat, candidates: seq<Candidate>, suppressed: set<Candidate>,
                        ghost a: Attempt)
      requires inFlight.None? && pending.Some? && Describes(a) && a.start == start && a.pos == position
      requires a.candidates == candidates && a.suppressed == suppressed
      modifies this`inFlight
      ensures Describes(Flushed(a, engine))
    {
      var covered := pending.value.covered;
      var unsent := if sentCandidates <= covered <= |candidates| then candidates[sentCandidates..covered] else [];
      var kept := Kept(unsent, suppressed);
      KeptIsSubset(unsent, suppressed);
      assert unsent == Unsent(a);
      ComposeBatch(position, kept, |unsent| - |kept|, Origin(start, sentPos, position, [], suppressed, abandoned));
    }

    /**
     Send what is due and arm the next interval, whether or not the send worked. A batch in
     flight is redelivered as it is; otherwise the pending boundary becomes one.
     */
    method Flush(start: nat, position: nat, candidates: seq<Candidate>, suppressed: set<Candidate>,
                 answer: Option<nat>, now: real, ghost a: Attempt)
      requires inFlight.Some? || pending.Some?
      requires Describes(a) && a.start == start && a.pos == position
      requires a.candidates == candidates && a.suppressed == suppressed
      modifies this
      ensures Describes(Exchanged(a, engine, answer))
      ensures deadline == now + CHECKPOINT_BATCH_SECONDS
    {
      if inFlight.None? {
        PrepareBatch(start, position, candidates, suppressed, a);
      }
      Deliver(answer);
      deadline := now + CHECKPOINT_BATCH_SECONDS;
    }
  }

  class TaskRow {
    var status: Status
    var engine: Option<nat>
    var attempts: nat
    var sequence: nat
    var checkpoint: nat
    var coverage: Option<Report>
    var resultKey: Option<nat>
    var findings: seq<Candidate>
    var prefiltered: int
    var tally: Tally
    ghost var history: seq<Origin>
    ghost var final: Option<Origin>
    ghost var closing: seq<Op>
    ghost var discarded: seq<nat>
    ghost var replaced: bool

    ghost function Model(): Task
      reads this
    {
      Task(status, engine, attempts, sequence, checkpoint, coverage, resultKey, findings,
           prefiltered, tally, history, final, closing, discarded, replaced)
    }

    /** The conditional update: one batch number, claimed once, only by the lease holder. */
    method AdvanceCheckpoint(m: Progress) returns (claimed: bool)
      modifies this`sequence, this`checkpoint, this`history, this`discarded
      ensures claimed == Advances(old(Model()), m)
      ensures Model() == if claimed
                         then old(Model()).(sequence := m.sequence, checkpoint := m.checkpoint,
                                            history := old(history) + [m.origin],
                                            discarded := old(discarded) + m.origin.abandoned)
                         else old(Model())
    {
      claimed := engine == Some(m.engine) && status.Leased? && resultKey.None? && sequence == m.sequence - 1;
      if claimed {
        sequence, checkpoint := m.sequence, m.checkpoint;
        history, discarded := history + [m.origin], discarded + m.origin.abandoned;
      }
    }

    method StoredReport() returns (report: Option<Report>)
      ensures report == Stored(Model())
    {
      report := if coverage.Some? && Valid(coverage.value) then coverage else None;
    }

    /** Store findings with their pre-filtered count and tallies. */
    method AddFindings(more: seq<Candidate>, suppressed: int, counted: Tally)
      modifies this`findings, this`prefiltered, this`tally
      ensures findings == old(findings) + more && prefiltered == old(prefiltered) + suppressed
      ensures tally == Plus(old(tally), counted)
    {
      findings, prefiltered := findings + more, prefiltered + suppressed;
      tally := Plus(tally, counted);
    }

    method AcceptProgress(m: Progress) returns (reply: Reply)
      modifies this
      ensures (Model(), reply) == SubmitProgress(old(Model()), m)
    {
      if !ValidProgress(m) || engine != Some(m.engine) {
        return Error;
      }
      var stored := StoredReport();
      var claimed := AdvanceCheckpoint(m);
      if !claimed {
        return if resultKey.Some? then Error else Counter(sequence);
      }
      AddFindings(m.findings, m.prefiltered, m.tally);
      coverage := Some(Merge(stored, m.coverage));
      assert Model() == Advance(old(Model()), m);
      return Counter(m.sequence);
    }

    /** The conditional update that makes one submission own the task's results. */
    method ClaimResult(r: Results) returns (claimed: bool)
      modifies this`resultKey
      ensures claimed == Claims(old(Model()), r)
      ensures resultKey == if claimed then Some(r.key) else old(resultKey)
    {
      claimed := engine == Some(r.engine) && status.Leased? && resultKey.None?;
      if claimed {
        resultKey := Some(r.key);
      }
    }

    method AcceptResults(r: Results)
      modifies this
      ensures Model() == SubmitResults(old(Model()), r)
    {
      if !ValidResults(r) || engine != Some(r.engine) || r.sequence != sequence {
        return;
      }
      var stored := StoredReport();
      var claimed := ClaimResult(r);
      if !claimed {
        return;
      }
      var merged := if r.sequence > 0 then Merge(stored, r.coverage) else r.coverage;
      WriteResults(r, merged, EffectiveOutcome(r.completed, r.tally, Some(merged)));
      assert Model() == Conclude(old(Model()), r);
    }

    /** Store a claimed terminal body under its judged outcome. */
    method WriteResults(r: Results, merged: Report, outcome: Outcome)
      modifies this`findings, this`prefiltered, this`tally, this`status, this`coverage, this`final, this`discarded
      ensures Model() == old(Model()).(findings := old(findings) + r.findings,
                                       prefiltered := old(prefiltered) + r.prefiltered,
                                       tally := Plus(old(tally), r.tally), coverage := Some(merged),
                                       status := if outcome.Complete? then CompletedTask else FailedTask,
                                       final := Some(r.origin), discarded := old(discarded) + r.origin.abandoned)
    {
      AddFindings(r.findings, r.prefiltered, r.tally);
      status := if outcome.Complete? then CompletedTask else FailedTask;
      coverage, final := Some(merged), Some(r.origin);
      discarded := discarded + r.origin.abandoned;
    }

    /** Grant a lease; a position taken under another configuration is dropped, coverage and counter are not. */
    method GrantLease(holder: nat, stillValid: bool)
      requires status.Queued?
      modifies this
      ensures Model() == Lease(old(Model()), holder, !stillValid)
    {
      status, engine, attempts := Leased, Some(holder), attempts + 1;
      if !stillValid {
        discarded, checkpoint := discarded + [checkpoint], 0;
      }
    }

    /** End a task whose lease was claimed and whose pepper or credential cannot be read. */
    method FailLease(holder: nat, reason: Reason)
      requires status.Queued?
      modifies this
      ensures Model() == LeaseFails(old(Model()), holder, reason)
    {
      engine, attempts := Some(holder), attempts + 1;
      CloseWith(FailureReport(reason), [TaskLoss(reason, None)]);
    }

    /** Fail the task, writing a report of its own over what was accumulated. */
    method CloseWith(report: Report, ghost losses: seq<Op>)
      modifies this`status, this`coverage, this`closing, this`replaced
      ensures status == FailedTask && coverage == Some(report) && closing == losses && replaced
    {
      status, coverage := FailedTask, Some(report);
      closing, replaced := losses, true;
    }
  }
}
