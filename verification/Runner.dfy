/**
 One fetch of one engine from its lease to its terminal report, as the runner drives it: record
 what the connector does, flush at the boundary before a unit is touched, detect, mark the next
 boundary. The fetch is tied to the protocol model as a whole: whatever the network answers and
 whatever everybody else does meanwhile, it is a run of that model.
 */
module Runner {
  import opened Basics
  import opened Coverage
  import opened CoverageRecorder
  import opened BatchProtocol
  import opened ProtocolInvariant
  import opened Batcher

  // ----- what a fetch records -----

  /** What can be recorded after `history`: allowed reasons, and no scan taken back that was not recorded. */
  predicate Recordable(history: seq<Op>, ops: seq<Op>) {
    forall i :: 0 <= i < |ops| ==>
      OpAllowed(ops[i]) && (ops[i].Truncate? ==> Sum(Scanned, history + ops[..i]) >= 1)
  }

  /** Every unit takes back only scans of its own. */
  predicate Orderly(w: Work) {
    && WellFormed(w) && Recordable([], w.tail)
    && forall i :: 0 <= i < |w.units| ==> Recordable([], w.units[i].ops + w.units[i].mark)
  }

  /** The tallies a fetch reports alongside its units, and the coverage it records. */
  class FetchOutcome {
    const coverage: TaskCoverage
    var units: int
    var skipped: int
    var failed: int

    ghost predicate Valid()
      reads this, coverage
    {
      && coverage.Valid()
      && units == Sum(YieldedUnits, coverage.history) && skipped == Sum(SkippedObjects, coverage.history)
      && failed == Sum(FailedUnits, coverage.history)
    }

    constructor ()
      ensures Valid() && coverage.history == [] && fresh(coverage)
    {
      coverage := new TaskCoverage();
      units, skipped, failed := 0, 0, 0;
    }

    /** Count one event and record it in the coverage. */
    method Record(op: Op)
      requires Valid() && OpAllowed(op) && (op.Truncate? ==> Sum(Scanned, coverage.history) >= 1)
      modifies this, coverage
      ensures Valid() && coverage.history == old(coverage.history) + [op]
    {
      OneMoreEvent(coverage.history, op);
      var ok := true;
      match op {
        case Scan =>
          units := units + 1;
          coverage.ScannedFor();
        case Skip(reason, kind, reference) =>
          skipped := skipped + 1;
          ok := coverage.SkippedFor(reason, kind, reference);
        case Fail(reason, kind, reference) =>
          failed := failed + 1;
          ok := coverage.FailedFor(reason, kind, reference);
        case Truncate(reason, kind, reference) =>
          ok := coverage.ScannedButIncomplete(reason, kind, reference);
        case ScopeLoss(reason, reference) =>
          failed := failed + 1;
          ok := coverage.ScopeGapFor(reason, reference);
        case TaskLoss(reason, reference) =>
          ok := coverage.TaskGapFor(reason, reference);
      }
    }

    method RecordAll(ops: seq<Op>)
      requires Valid() && Recordable(coverage.history, ops)
      modifies this, coverage
      ensures Valid() && coverage.history == old(coverage.history) + ops
    {
      ghost var before := coverage.history;
      for n := 0 to |ops|
        invariant Valid() && coverage.history == before + ops[..n]
      {
        NextRecordable(before, ops, n);
        Record(ops[n]);
      }
      assert before + ops[..|ops|] == before + ops;
    }

    method Tallies(truncated: int, dropped: int) returns (tally: Tally)
      requires Valid()
      ensures tally == TallyOf(coverage.history, truncated, dropped)
    {
      tally := map[Units := units, UnitsSkipped := skipped, UnitsFailed := failed, UnitsTruncated := truncated,
                   BelowThreshold := dropped];
      forall key: Measure ensures key in tally {
        match key
        case Units =>
        case UnitsSkipped =>
        case UnitsFailed =>
        case UnitsTruncated =>
        case BelowThreshold =>
      }
    }
  }

  lemma NextRecordable(history: seq<Op>, ops: seq<Op>, n: nat)
    requires Recordable(history, ops) && n < |ops|
    ensures OpAllowed(ops[n]) && (ops[n].Truncate? ==> Sum(Scanned, history + ops[..n]) >= 1)
    ensures history + ops[..n] + [ops[n]] == history + ops[..n + 1]
  {
  }

  lemma OneMoreEvent(ops: seq<Op>, op: Op)
    ensures Sum(YieldedUnits, ops + [op]) == Sum(YieldedUnits, ops) + YieldedUnits(op)
    ensures Sum(SkippedObjects, ops + [op]) == Sum(SkippedObjects, ops) + SkippedObjects(op)
    ensures Sum(FailedUnits, ops + [op]) == Sum(FailedUnits, ops) + FailedUnits(op)
  {
    assert (ops + [op])[..|ops|] == ops;
  }

  lemma RecordableAfter(history: seq<Op>, ops: seq<Op>)
    requires Recordable([], ops) && Sum(Scanned, history) >= 0
    ensures Recordable(history, ops)
  {
    forall i | 0 <= i < |ops| && ops[i].Truncate? ensures Sum(Scanned, history + ops[..i]) >= 1 {
      SumConcat(Scanned, history, ops[..i]);
      assert [] + ops[..i] == ops[..i];
    }
  }

  /** Recording never takes back more scans than there are. */
  lemma {:induction false} ScansStayCovered(history: seq<Op>, ops: seq<Op>)
    requires Recordable(history, ops) && Sum(Scanned, history) >= 0
    ensures Sum(Scanned, history + ops) >= 0
  {
    if ops == [] {
      assert history + ops == history;
    } else {
      var before, last := ops[..|ops| - 1], ops[|ops| - 1];
      FrontRecordable(history, ops);
      ScansStayCovered(history, before);
      OneMoreScan(history + before, last);
      assert history + ops == history + before + [last];
    }
  }

  lemma FrontRecordable(history: seq<Op>, ops: seq<Op>)
    requires Recordable(history, ops) && ops != []
    ensures Recordable(history, ops[..|ops| - 1])
  {
    var before := ops[..|ops| - 1];
    assert forall i :: 0 <= i < |before| ==> before[..i] == ops[..i];
  }

  lemma OneMoreScan(ops: seq<Op>, op: Op)
    ensures Sum(Scanned, ops + [op]) == Sum(Scanned, ops) + Scanned(op)
  {
    assert (ops + [op])[..|ops|] == ops;
  }

  /** A unit can be recorded after whole units, and leaves its scans covered. */
  lemma UnitRecordable(w: Work, history: seq<Op>, i: nat)
    requires Orderly(w) && i < |w.units| && Sum(Scanned, history) >= 0
    ensures var u := w.units[i];
            && Recordable(history, u.ops) && Recordable(history + u.ops, u.mark)
            && Sum(Scanned, history + u.ops) >= 0 && Sum(Scanned, history + u.ops + u.mark) >= 0
  {
    var u := w.units[i];
    RecordableAfter(history, u.ops + u.mark);
    RecordableInTurn(history, u.ops, u.mark);
    ScansStayCovered(history, u.ops);
    ScansStayCovered(history + u.ops, u.mark);
  }

  lemma RecordableInTurn(history: seq<Op>, a: seq<Op>, b: seq<Op>)
    requires Recordable(history, a + b)
    ensures Recordable(history, a) && Recordable(history + a, b)
  {
    forall i | 0 <= i < |a| ensures OpAllowed(a[i]) && (a[i].Truncate? ==> Sum(Scanned, history + a[..i]) >= 1) {
      assert (a + b)[i] == a[i] && (a + b)[..i] == a[..i];
    }
    forall i | 0 <= i < |b| ensures OpAllowed(b[i]) && (b[i].Truncate? ==> Sum(Scanned, history + a + b[..i]) >= 1) {
      assert (a + b)[|a| + i] == b[i] && (a + b)[..|a| + i] == a + b[..i];
      assert history + (a + b[..i]) == history + a + b[..i];
    }
  }

  // ----- one turn of the loop -----

  /** What the outside world contributes to one turn: the clock before and after a flush, and the API's answer. */
  datatype Moment = Moment(at: real, answer: Option<nat>, after: real)

  /** An attempt with the deadline its batcher is armed with. */
  datatype Running = Running(a: Attempt, deadline: real)

  /** The position the connector has published on yielding a unit: the one behind the units before it. */
  function Published(a: Attempt): Option<nat> {
    if a.pos > a.start then Some(a.pos) else None
  }

  predicate Flushes(r: Running, m: Moment) {
    IsDue(r.a.ledger, Published(r.a), r.deadline, m.at)
  }

  /** At the boundary before a unit is touched: flush if that is due. */
  function AtBoundary(r: Running, e: nat, m: Moment): Running {
    if Flushes(r, m) then Running(Exchanged(r.a, e, m.answer), m.after + CHECKPOINT_BATCH_SECONDS) else r
  }

  lemma StillAhead(r: Running, e: nat, m: Moment)
    ensures var b := AtBoundary(r, e, m).a;
            && b.pos == r.a.pos && b.arrived == r.a.arrived && b.ops == r.a.ops && b.start == r.a.start
            && b.candidates == r.a.candidates && b.truncated == r.a.truncated && b.dropped == r.a.dropped
            && b.suppressed == r.a.suppressed && b.number == r.a.number
  {
  }

  function Arriving(w: Work, r: Running): Running
    requires r.a.pos < |w.units|
  {
    r.(a := Arrived(w, r.a))
  }

  /** One unit: it arrives, the boundary before it is flushed, and it is processed. */
  function Turn(w: Work, r: Running, e: nat, m: Moment): (after: Running)
    requires r.a.pos < |w.units|
    ensures after.a.pos == r.a.pos + 1 && !after.a.arrived
  {
    var b := AtBoundary(Arriving(w, r), e, m);
    b.(a := Processed(w, b.a))
  }

  function Turns(w: Work, r: Running, e: nat, ms: seq<Moment>): (after: Running)
    requires r.a.pos + |ms| <= |w.units| && !r.a.arrived
    ensures after.a.pos == r.a.pos + |ms| && !after.a.arrived
  {
    if ms == [] then r
    else Turn(w, Turns(w, r, e, ms[..|ms| - 1]), e, ms[|ms| - 1])
  }

  // ----- the end of a fetch -----

  /**
   How a fetch ends: the connector is through, or raises before the next unit, or the next unit
   arrives and handling it fails, or it arrives and the task turns out cancelled. `more` is what is
   recorded on the way out.
   */
  datatype Ending = Exhausted | Raised(more: seq<Op>) | Broken(moment: Moment, more: seq<Op>) | Cancelled

  predicate CanEnd(w: Work, pos: nat, ending: Ending) {
    match ending
    case Exhausted => pos == |w.units|
    case Raised(more) => pos <= |w.units| && Recordable([], more)
    case Broken(_, more) => pos < |w.units| && Recordable([], more)
    case Cancelled => pos < |w.units|
  }

  /** Complete only if nothing failed and nothing was truncated. */
  predicate Clean(a: Attempt, more: seq<Op>) {
    Sum(FailedUnits, a.ops + more) == 0 && a.truncated == 0
  }

  /** The terminal report, or none when the task was cancelled. */
  function Submission(w: Work, r: Running, e: nat, ending: Ending): Option<Results>
    requires CanEnd(w, r.a.pos, ending)
  {
    match ending
    case Exhausted => Some(Terminal(r.a, e, w.tail, Clean(r.a, w.tail), w.tail))
    case Raised(more) => Some(Terminal(r.a, e, more, false, more))
    case Broken(m, more) =>
      Some(Terminal(AtBoundary(Arriving(w, r), e, m).a, e, more, false, w.units[r.a.pos].ops + more))
    case Cancelled => None
  }

  // ----- the runner -----

  /** The values of an attempt that the runner holds one by one. */
  predicate Carries(a: Attempt, history: seq<Op>, candidates: seq<Candidate>, truncated: int, dropped: int) {
    history == a.ops && candidates == a.candidates && truncated == a.truncated && dropped == a.dropped
  }

  lemma ProcessedCarries(w: Work, a: Attempt, history: seq<Op>, candidates: seq<Candidate>, truncated: int,
                         dropped: int)
    requires a.pos < |w.units| && Carries(a, history, candidates, truncated, dropped)
    ensures var u, b := w.units[a.pos], Processed(w, a);
            && Carries(b, history + u.mark, candidates + u.candidates, truncated + u.truncated, dropped + u.dropped)
            && b.ledger == RecordBoundary(a.ledger,
                             Boundary(|candidates + u.candidates|, Payload(history + u.mark),
                                      TallyOf(history + u.mark, truncated + u.truncated, dropped + u.dropped)))
            && b.sentPos == a.sentPos && b.abandoned == a.abandoned
  {
  }

  /** What the runner holds is the attempt of the model. */
  ghost predicate Stands(r: Running, batcher: EngineBatcher, outcome: FetchOutcome, candidates: seq<Candidate>,
                         truncated: int, dropped: int)
    reads batcher, outcome, outcome.coverage
  {
    && outcome.Valid() && Carries(r.a, outcome.coverage.history, candidates, truncated, dropped)
    && batcher.Describes(r.a) && batcher.deadline == r.deadline
  }

  /** Flush, if it is due, before the unit that has just arrived is touched. */
  method FlushIfDue(batcher: EngineBatcher, start: nat, position: nat, candidates: seq<Candidate>,
                    suppressed: set<Candidate>, m: Moment, ghost r: Running)
    requires batcher.Describes(r.a) && batcher.deadline == r.deadline
    requires r.a.start == start && r.a.pos == position && r.a.candidates == candidates && r.a.suppressed == suppressed
    modifies batcher
    ensures var after := AtBoundary(r, batcher.engine, m);
            batcher.Describes(after.a) && batcher.deadline == after.deadline
  {
    var published := if position > start then Some(position) else None;
    var due := batcher.Due(published, m.at);
    if due {
      batcher.Flush(start, position, candidates, suppressed, m.answer, m.after, r.a);
    }
  }

  /** Everything recorded and found so far is behind the boundary. */
  method MarkBehind(batcher: EngineBatcher, outcome: FetchOutcome, covered: nat, truncated: int, dropped: int)
    requires outcome.Valid()
    modifies batcher`pending
    ensures batcher.Model() ==
            RecordBoundary(old(batcher.Model()), Boundary(covered, Payload(outcome.coverage.history),
                                                          TallyOf(outcome.coverage.history, truncated, dropped)))
  {
    var report := outcome.coverage.AsPayload();
    var tally := outcome.Tallies(truncated, dropped);
    batcher.MarkBoundary(covered, report, tally);
  }

  /** Take in a unit that arrived, and mark the boundary behind it. */
  method TakeIn(w: Work, batcher: EngineBatcher, outcome: FetchOutcome, u: Unit, candidates: seq<Candidate>,
                truncated: int, dropped: int, ghost r: Running)
    returns (more: seq<Candidate>, truncatedNow: int, droppedNow: int)
    requires Stands(r, batcher, outcome, candidates, truncated, dropped)
    requires r.a.pos < |w.units| && w.units[r.a.pos] == u && Recordable(r.a.ops, u.mark)
    modifies batcher, outcome, outcome.coverage
    ensures Stands(r.(a := Processed(w, r.a)), batcher, outcome, more, truncatedNow, droppedNow)
  {
    ProcessedCarries(w, r.a, outcome.coverage.history, candidates, truncated, dropped);
    truncatedNow, droppedNow := truncated + u.truncated, dropped + u.dropped;
    outcome.RecordAll(u.mark);
    more := candidates + u.candidates;
    MarkBehind(batcher, outcome, |more|, truncatedNow, droppedNow);
  }

  /** What no acknowledged batch carried, in the one terminal report. */
  method ReportRest(batcher: EngineBatcher, outcome: FetchOutcome, candidates: seq<Candidate>, truncated: int,
                    dropped: int, number: nat, suppressed: set<Candidate>, start: nat, position: nat, more: seq<Op>,
                    completed: bool, extra: seq<Op>, ghost a: Attempt)
    returns (results: Results)
    requires batcher.Describes(a) && outcome.Valid() && outcome.coverage.history == a.ops + more
    requires candidates == a.candidates && truncated == a.truncated && dropped == a.dropped
    requires a.number == number && a.suppressed == suppressed && a.start == start && a.pos == position
    ensures results == Terminal(a, batcher.engine, more, completed, extra)
  {
    var sent := batcher.sentCandidates;
    var rest := if sent <= |candidates| then candidates[sent..] else [];
    var kept := Kept(rest, suppressed);
    KeptIsSubset(rest, suppressed);
    var report := outcome.coverage.AsPayload();
    var tally := outcome.Tallies(truncated, dropped);
    results := Results(batcher.engine, number, batcher.sequence, completed, kept, |rest| - |kept|,
                       Minus(tally, batcher.sentTally), Delta(report, batcher.sentCoverage),
                       Origin(start, batcher.sentPos, position, extra, suppressed, batcher.abandoned));
  }

  /** The state right after the lease. */
  function Begun(number: nat, suppressed: set<Candidate>, checkpoint: nat, sequence: nat, ignores: bool,
                 leasedAt: real): Running
  {
    Running(NewAttempt(number, suppressed, checkpoint, sequence, ignores), leasedAt + CHECKPOINT_BATCH_SECONDS)
  }

  lemma OneMoreTurn(w: Work, r: Running, e: nat, ms: seq<Moment>, n: nat)
    requires r.a.pos + |ms| <= |w.units| && !r.a.arrived && n < |ms|
    ensures Turns(w, r, e, ms[..n + 1]) == Turn(w, Turns(w, r, e, ms[..n]), e, ms[n])
  {
    assert ms[..n + 1][..n] == ms[..n];
  }

  /** One whole turn of the loop: the connector records, the batcher flushes, the unit is taken in. */
  method HandleUnit(w: Work, batcher: EngineBatcher, outcome: FetchOutcome, start: nat, position: nat,
                    candidates: seq<Candidate>, truncated: int, dropped: int, suppressed: set<Candidate>, m: Moment,
                    ghost r: Running)
    returns (more: seq<Candidate>, truncatedNow: int, droppedNow: int)
    requires Orderly(w) && position < |w.units| && Sum(Scanned, r.a.ops) >= 0
    requires Stands(r, batcher, outcome, candidates, truncated, dropped)
    requires r.a.start == start && r.a.pos == position && r.a.suppressed == suppressed
    modifies batcher, outcome, outcome.coverage
    ensures Stands(Turn(w, r, batcher.engine, m), batcher, outcome, more, truncatedNow, droppedNow)
    ensures Sum(Scanned, outcome.coverage.history) >= 0
  {
    var u := w.units[position];
    UnitRecordable(w, r.a.ops, position);
    outcome.RecordAll(u.ops);
    ghost var arriving := Arriving(w, r);
    FlushIfDue(batcher, start, position, candidates, suppressed, m, arriving);
    StillAhead(arriving, batcher.engine, m);
    ghost var ahead := AtBoundary(arriving, batcher.engine, m);
    more, truncatedNow, droppedNow := TakeIn(w, batcher, outcome, u, candidates, truncated, dropped, ahead);
  }

  /** The end of the fetch, however it comes about. */
  method Finish(w: Work, batcher: EngineBatcher, outcome: FetchOutcome, candidates: seq<Candidate>, truncated: int,
                dropped: int, number: nat, suppressed: set<Candidate>, start: nat, position: nat,
                ending: Ending, ghost r: Running)
    returns (results: Option<Results>)
    requires Orderly(w) && CanEnd(w, position, ending) && Sum(Scanned, r.a.ops) >= 0
    requires Stands(r, batcher, outcome, candidates, truncated, dropped)
    requires r.a.number == number && r.a.suppressed == suppressed && r.a.start == start && r.a.pos == position
    modifies batcher, outcome, outcome.coverage
    ensures results == Submission(w, r, batcher.engine, ending)
  {
    match ending {
      case Exhausted =>
        RecordableAfter(r.a.ops, w.tail);
        outcome.RecordAll(w.tail);
        var completed := outcome.failed == 0 && truncated == 0;
        var report := ReportRest(batcher, outcome, candidates, truncated, dropped, number, suppressed, start, position,
                                 w.tail, completed, w.tail, r.a);
        return Some(report);
      case Raised(more) =>
        RecordableAfter(r.a.ops, more);
        outcome.RecordAll(more);
        var report := ReportRest(batcher, outcome, candidates, truncated, dropped, number, suppressed, start, position,
                                 more, false, more, r.a);
        return Some(report);
      case Broken(m, more) =>
        var u := w.units[position];
        UnitRecordable(w, r.a.ops, position);
        outcome.RecordAll(u.ops);
        ghost var arriving := Arriving(w, r);
        FlushIfDue(batcher, start, position, candidates, suppressed, m, arriving);
        StillAhead(arriving, batcher.engine, m);
        RecordableAfter(r.a.ops + u.ops, more);
        outcome.RecordAll(more);
        var report := ReportRest(batcher, outcome, candidates, truncated, dropped, number, suppressed, start, position,
                                 more, false, u.ops + more, AtBoundary(arriving, batcher.engine, m).a);
        return Some(report);
      case Cancelled =>
        return None;
    }
  }

  /** The loop over the units the connector yields. */
  method ReadUnits(w: Work, batcher: EngineBatcher, outcome: FetchOutcome, start: nat,
                   suppressed: set<Candidate>, moments: seq<Moment>, ghost first: Running)
    returns (candidates: seq<Candidate>, truncated: int, dropped: int)
    requires Orderly(w) && start + |moments| <= |w.units| && Stands(first, batcher, outcome, [], 0, 0)
    requires first.a.start == first.a.pos == start && !first.a.arrived && first.a.suppressed == suppressed
    requires first.a.ops == []
    modifies batcher, outcome, outcome.coverage
    ensures Stands(Turns(w, first, batcher.engine, moments), batcher, outcome, candidates, truncated,
                   dropped)
    ensures Sum(Scanned, outcome.coverage.history) >= 0
  {
    candidates, truncated, dropped := [], 0, 0;
    ghost var run := first;
    for n := 0 to |moments|
      invariant run == Turns(w, first, batcher.engine, moments[..n])
      invariant run.a.start == start && run.a.suppressed == suppressed
      invariant Stands(run, batcher, outcome, candidates, truncated, dropped)
      invariant Sum(Scanned, outcome.coverage.history) >= 0
    {
      OneMoreTurn(w, first, batcher.engine, moments, n);
      TurnKeepsLease(w, run, batcher.engine, moments[n]);
      candidates, truncated, dropped :=
        HandleUnit(w, batcher, outcome, start, start + n, candidates, truncated, dropped, suppressed,
                   moments[n], run);
      run := Turn(w, run, batcher.engine, moments[n]);
    }
    assert moments[..|moments|] == moments;
  }

  /**
   A whole fetch. Whatever the clock shows and the network answers, it makes the turns of the model
   from the lease on and ends with the model's terminal report, or with none once it is cancelled.
   */
  method Fetch(w: Work, e: nat, number: nat, suppressed: set<Candidate>, checkpoint: nat, sequence: nat,
               ignores: bool, leasedAt: real, moments: seq<Moment>, ending: Ending)
    returns (results: Option<Results>)
    requires Orderly(w) && (if ignores then 0 else checkpoint) + |moments| <= |w.units|
    requires CanEnd(w, (if ignores then 0 else checkpoint) + |moments|, ending)
    ensures var first := Begun(number, suppressed, checkpoint, sequence, ignores, leasedAt);
            results == Submission(w, Turns(w, first, e, moments), e, ending)
  {
    var start := if ignores then 0 else checkpoint;
    ghost var first := Begun(number, suppressed, checkpoint, sequence, ignores, leasedAt);
    var batcher := new EngineBatcher(e, sequence, leasedAt, start, if ignores then [checkpoint] else []);
    var outcome := new FetchOutcome();
    var candidates, truncated, dropped := ReadUnits(w, batcher, outcome, start, suppressed, moments, first);
    TurnsKeepLease(w, first, e, moments);
    results := Finish(w, batcher, outcome, candidates, truncated, dropped, number, suppressed, start,
                      start + |moments|, ending, Turns(w, first, e, moments));
  }

  lemma TurnKeepsLease(w: Work, r: Running, e: nat, m: Moment)
    requires r.a.pos < |w.units|
    ensures var a := Turn(w, r, e, m).a;
            a.start == r.a.start && a.suppressed == r.a.suppressed && a.number == r.a.number
  {
    StillAhead(Arriving(w, r), e, m);
  }

  lemma {:induction false} TurnsKeepLease(w: Work, r: Running, e: nat, ms: seq<Moment>)
    requires r.a.pos + |ms| <= |w.units| && !r.a.arrived
    ensures var a := Turns(w, r, e, ms).a;
            a.start == r.a.start && a.suppressed == r.a.suppressed && a.number == r.a.number
  {
    if ms != [] {
      TurnsKeepLease(w, r, e, ms[..|ms| - 1]);
      TurnKeepsLease(w, Turns(w, r, e, ms[..|ms| - 1]), e, ms[|ms| - 1]);
    }
  }
}
