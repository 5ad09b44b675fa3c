/**
 The checkpointed batch protocol between scanning engines and the API for one fetch task.

 An engine leases the task, receives content units one by one, and every so often sends a
 batch holding everything since the last acknowledged batch together with the connector
 position that describes exactly the same prefix. Messages may be lost, duplicated or
 delayed, replies may be lost, engines may crash, leases may be reclaimed and granted to
 other engines while the first one is still running, and the task may be cancelled.

 Fields named `origin`, `start`, `sentPos`, `leased`, `abandoned`, `history`, `final`,
 `closing`, `discarded` and `replaced` are history variables: no guard reads them and they
 only record what the real fields are about.
 */
module BatchProtocol {
  import opened Basics
  import opened Coverage

  // ----- the work of one task -----

  datatype Candidate = Candidate(fingerprint: string, ruleId: string)

  /**
   One unit of content: what the connector records before and on yielding it, what the
   runner records while scanning it, and what detection makes of it.
   */
  datatype Unit = Unit(ops: seq<Op>, mark: seq<Op>, candidates: seq<Candidate>,
                       truncated: nat, dropped: nat)

  /** All units in connector order, and what the connector records after the last one. */
  datatype Work = Work(units: seq<Unit>, tail: seq<Op>)

  predicate WellFormed(w: Work) {
    && (forall i :: 0 <= i < |w.units| ==> WholeUnits(w.units[i].ops + w.units[i].mark))
    && WholeUnits(w.tail)
  }

  function OpsOf(us: seq<Unit>): seq<Op> {
    if us == [] then []
    else OpsOf(us[..|us| - 1]) + (us[|us| - 1].ops + us[|us| - 1].mark)
  }

  function CandidatesOf(us: seq<Unit>): seq<Candidate> {
    if us == [] then [] else CandidatesOf(us[..|us| - 1]) + us[|us| - 1].candidates
  }

  function TruncatedIn(u: Unit): int { u.truncated }
  function DroppedIn(u: Unit): int { u.dropped }

  datatype Measure = Units | UnitsSkipped | UnitsFailed | UnitsTruncated | BelowThreshold

  /** The engine's tallies, as the dictionaries they travel in. */
  type Tally = map<Measure, int>

  function At(t: Tally, key: Measure): int {
    if key in t then t[key] else 0
  }

  /** A missing entry and a zero entry mean the same to every reader. */
  function NoTally(): Tally {
    map key: Measure | true :: Nothing(key)
  }

  function Nothing(key: Measure): int { 0 }

  function Plus(a: Tally, b: Tally): Tally {
    map key | key in a.Keys + b.Keys :: At(a, key) + At(b, key)
  }

  function Minus(a: Tally, b: Tally): Tally {
    map key | key in a :: a[key] - At(b, key)
  }

  predicate NonNegative(t: Tally) {
    forall key :: key in t ==> t[key] >= 0
  }

  function YieldedUnits(op: Op): int { if op.Scan? then 1 else 0 }
  function FailedUnits(op: Op): int { if op.Fail? || op.ScopeLoss? then 1 else 0 }

  function Reading(key: Measure, ops: seq<Op>, truncated: int, dropped: int): int {
    match key
    case Units => Sum(YieldedUnits, ops)
    case UnitsSkipped => Sum(SkippedObjects, ops)
    case UnitsFailed => Sum(FailedUnits, ops)
    case UnitsTruncated => truncated
    case BelowThreshold => dropped
  }

  /** The engine's running tallies after recording `ops`. */
  function TallyOf(ops: seq<Op>, truncated: int, dropped: int): Tally {
    map key: Measure | true :: Reading(key, ops, truncated, dropped)
  }

  function UnitTally(us: seq<Unit>): Tally {
    TallyOf(OpsOf(us), Sum(TruncatedIn, us), Sum(DroppedIn, us))
  }

  /** What the engine reports of a slice after pre-filtering with its lease's suppressions. */
  function Kept(cs: seq<Candidate>, suppressed: set<Candidate>): seq<Candidate> {
    if cs == [] then []
    else
      var rest := Kept(cs[..|cs| - 1], suppressed);
      if cs[|cs| - 1] in suppressed then rest else rest + [cs[|cs| - 1]]
  }

  lemma {:induction false} KeptIsSubset(cs: seq<Candidate>, suppressed: set<Candidate>)
    ensures |Kept(cs, suppressed)| <= |cs|
    ensures forall c :: c in Kept(cs, suppressed) <==> c in cs && c !in suppressed
  {
    if cs != [] {
      KeptIsSubset(cs[..|cs| - 1], suppressed);
      assert cs == cs[..|cs| - 1] + [cs[|cs| - 1]];
    }
  }

  function Prefiltered(cs: seq<Candidate>, suppressed: set<Candidate>): int {
    |cs| - |Kept(cs, suppressed)|
  }

  // ----- messages -----

  /**
   History: units `[from, upto)` and the extra operations a message is about. `abandoned`
   holds the leased position its attempt set aside to start from the top, until a message of
   the attempt has been acknowledged.
   */
  datatype Origin = Origin(start: nat, from: nat, upto: nat, extra: seq<Op>, suppressed: set<Candidate>,
                           abandoned: seq<nat>)

  datatype Progress = Progress(engine: nat, sequence: nat, checkpoint: nat, findings: seq<Candidate>,
                               prefiltered: int, tally: Tally, coverage: Report, origin: Origin)

  datatype Results = Results(engine: nat, key: nat, sequence: nat, completed: bool,
                             findings: seq<Candidate>, prefiltered: int, tally: Tally,
                             coverage: Report, origin: Origin)

  // ----- the engine's ledger -----

  datatype Boundary = Boundary(covered: nat, coverage: Report, tally: Tally)
  datatype Batch = Batch(message: Progress, boundary: Boundary)

  /** How much of the task the API is known to hold, and the one batch whose fate is open. */
  datatype Ledger = Ledger(sequence: nat, sentCandidates: nat, sentCoverage: Report, sentTally: Tally,
                           pending: Option<Boundary>, flushed: Option<nat>, inFlight: Option<Batch>)

  function NewLedger(sequence: nat): Ledger {
    Ledger(sequence, 0, EmptyReport(), NoTally(), None, None, None)
  }

  function RecordBoundary(l: Ledger, b: Boundary): Ledger {
    l.(pending := Some(b))
  }

  function Compose(l: Ledger, engine: nat, checkpoint: nat, findings: seq<Candidate>,
                   prefiltered: int, origin: Origin): Ledger
    requires l.pending.Some?
  {
    var b := l.pending.value;
    l.(inFlight := Some(Batch(Progress(engine, l.sequence + 1, checkpoint, findings, prefiltered,
                                       Minus(b.tally, l.sentTally),
                                       Delta(b.coverage, l.sentCoverage), origin), b)))
  }

  /** The API reported its counter for the batch in flight. */
  function Settle(l: Ledger, reported: nat): Ledger
    requires l.inFlight.Some?
  {
    var batch := l.inFlight.value;
    if reported < batch.message.sequence then l.(inFlight := None)
    else Ledger(reported, batch.boundary.covered, batch.boundary.coverage, batch.boundary.tally,
                None, Some(batch.message.checkpoint), None)
  }

  // ----- one attempt of one engine -----

  /**
   `pos` counts the units of the whole task this attempt has behind it. `arrived` says that
   the connector has already yielded the next unit, which is when it has also published the
   position after unit `pos`.
   */
  datatype Attempt = Attempt(number: nat, suppressed: set<Candidate>, pos: nat, arrived: bool,
                             ops: seq<Op>, truncated: int, dropped: int, candidates: seq<Candidate>,
                             ledger: Ledger, start: nat, sentPos: nat, leased: nat,
                             abandoned: seq<nat>)

  /** A fetch that starts where the lease says, or from the top when it cannot read the position. */
  function NewAttempt(number: nat, suppressed: set<Candidate>, checkpoint: nat, sequence: nat,
                      ignores: bool): Attempt
  {
    var start := if ignores then 0 else checkpoint;
    Attempt(number, suppressed, start, false, [], 0, 0, [], NewLedger(sequence),
            start, start, sequence, if ignores then [checkpoint] else [])
  }

  function Arrived(w: Work, a: Attempt): Attempt
    requires a.pos < |w.units|
  {
    a.(arrived := true, ops := a.ops + w.units[a.pos].ops)
  }

  function Processed(w: Work, a: Attempt): Attempt
    requires a.pos < |w.units|
  {
    var u := w.units[a.pos];
    var ops, candidates := a.ops + u.mark, a.candidates + u.candidates;
    var truncated, dropped := a.truncated + u.truncated, a.dropped + u.dropped;
    a.(pos := a.pos + 1, arrived := false, ops := ops, candidates := candidates,
       truncated := truncated, dropped := dropped,
       ledger := RecordBoundary(a.ledger,
                   Boundary(|candidates|, Payload(ops), TallyOf(ops, truncated, dropped))))
  }

  /** The candidates the pending boundary covers and no acknowledged batch carried. */
  function Unsent(a: Attempt): seq<Candidate>
    requires a.ledger.pending.Some?
  {
    var covered := a.ledger.pending.value.covered;
    if a.ledger.sentCandidates <= covered <= |a.candidates|
    then a.candidates[a.ledger.sentCandidates..covered] else []
  }

  function Flushed(a: Attempt, engine: nat): Attempt
    requires a.ledger.pending.Some?
  {
    var unsent := Unsent(a);
    a.(ledger := Compose(a.ledger, engine, a.pos, Kept(unsent, a.suppressed),
                         Prefiltered(unsent, a.suppressed),
                         Origin(a.start, a.sentPos, a.pos, [], a.suppressed, a.abandoned)))
  }

  function Acknowledged(a: Attempt, reported: nat): Attempt
    requires a.ledger.inFlight.Some?
  {
    var m := a.ledger.inFlight.value.message;
    if reported < m.sequence then a.(ledger := Settle(a.ledger, reported))
    else a.(ledger := Settle(a.ledger, reported), sentPos := m.checkpoint, abandoned := [])
  }

  /** The terminal submission: everything no acknowledged batch carried. */
  function Terminal(a: Attempt, engine: nat, more: seq<Op>, completed: bool, extra: seq<Op>): Results {
    var l := a.ledger;
    var rest := if l.sentCandidates <= |a.candidates| then a.candidates[l.sentCandidates..] else [];
    var ops := a.ops + more;
    Results(engine, a.number, l.sequence, completed, Kept(rest, a.suppressed),
            Prefiltered(rest, a.suppressed),
            Minus(TallyOf(ops, a.truncated, a.dropped), l.sentTally),
            Delta(Payload(ops), l.sentCoverage),
            Origin(a.start, a.sentPos, a.pos, extra, a.suppressed, a.abandoned))
  }

  // ----- the API's task row -----

  datatype Status = Queued | Leased | CompletedTask | FailedTask | CancelledTask

  datatype Task = Task(status: Status, engine: Option<nat>, attempts: nat, sequence: nat,
                       checkpoint: nat, coverage: Option<Report>, resultKey: Option<nat>,
                       findings: seq<Candidate>, prefiltered: int, tally: Tally,
                       history: seq<Origin>, final: Option<Origin>, closing: seq<Op>,
                       discarded: seq<nat>, replaced: bool)

  function NewTask(): Task {
    Task(Queued, None, 0, 0, 0, None, None, [], 0, NoTally(), [], None, [], [], false)
  }

  const MAX_BATCH_SEQUENCE: nat := 1_000

  /** What a lost, refused or erroneous exchange leaves the engine with. */
  datatype Reply = Counter(sequence: nat) | Error

  /** The stored report, discarded when it no longer passes the validators. */
  function Stored(t: Task): Option<Report> {
    if t.coverage.Some? && Valid(t.coverage.value) then t.coverage else None
  }

  predicate ValidProgress(m: Progress) {
    && 1 <= m.sequence <= MAX_BATCH_SEQUENCE
    && m.prefiltered >= 0 && NonNegative(m.tally) && Valid(m.coverage)
  }

  predicate ValidResults(r: Results) {
    && r.sequence <= MAX_BATCH_SEQUENCE
    && r.prefiltered >= 0 && NonNegative(r.tally) && Valid(r.coverage)
  }

  /** The conditional update that claims one batch number. */
  predicate Advances(t: Task, m: Progress) {
    && t.engine == Some(m.engine) && t.status.Leased? && t.resultKey.None?
    && t.sequence == m.sequence - 1
  }

  function Advance(t: Task, m: Progress): Task {
    t.(sequence := m.sequence, checkpoint := m.checkpoint,
       coverage := Some(Merge(Stored(t), m.coverage)),
       findings := t.findings + m.findings, prefiltered := t.prefiltered + m.prefiltered,
       tally := Plus(t.tally, m.tally), history := t.history + [m.origin],
       discarded := t.discarded + m.origin.abandoned)
  }

  function SubmitProgress(t: Task, m: Progress): (Task, Reply) {
    if !ValidProgress(m) || t.engine != Some(m.engine) then (t, Error)
    else if Advances(t, m) then (Advance(t, m), Counter(m.sequence))
    else if t.resultKey.Some? then (t, Error)
    else (t, Counter(t.sequence))
  }

  datatype Outcome = Complete | Uninspected | Unread | Truncation | UnreadAndTruncated | Reported

  /** Judge the task by its merged coverage first, then by the final body's own tallies. */
  function EffectiveOutcome(completed: bool, tally: Tally, coverage: Option<Report>): Outcome {
    var failed, truncated := At(tally, UnitsFailed), At(tally, UnitsTruncated);
    if !completed then Reported
    else if coverage.Some? && (coverage.value.counts.failed != 0 || coverage.value.scope.gaps != 0)
    then Uninspected
    else if failed > 0 && truncated == 0 then Unread
    else if truncated > 0 && failed == 0 then Truncation
    else if failed > 0 || truncated > 0 then UnreadAndTruncated
    else Complete
  }

  predicate Claims(t: Task, r: Results) {
    t.engine == Some(r.engine) && t.status.Leased? && t.resultKey.None?
  }

  function Conclude(t: Task, r: Results): Task {
    var merged := if r.sequence > 0 then Merge(Stored(t), r.coverage) else r.coverage;
    var outcome := EffectiveOutcome(r.completed, r.tally, Some(merged));
    t.(status := if outcome.Complete? then CompletedTask else FailedTask,
       coverage := Some(merged), resultKey := Some(r.key),
       findings := t.findings + r.findings, prefiltered := t.prefiltered + r.prefiltered,
       tally := Plus(t.tally, r.tally), final := Some(r.origin),
       discarded := t.discarded + r.origin.abandoned)
  }

  /** Whether a terminal body is the one the row still waits for. */
  predicate Concludes(t: Task, r: Results) {
    ValidResults(r) && t.engine == Some(r.engine) && r.sequence == t.sequence && Claims(t, r)
  }

  function SubmitResults(t: Task, r: Results): Task {
    if Concludes(t, r) then Conclude(t, r) else t
  }

  /** The report the API writes itself: one task-wide gap, nothing else. */
  function FailureReport(reason: Reason): Report {
    Report(Fetch, Counts(0, 0, 0, 0, 0), Scope(None, 0, 1), [Subtotal(Key(ScopeGap, reason), 1)], [], 1)
  }

  /** Cancelling merges the gap onto what was accumulated. */
  function Cancel(t: Task): Task {
    t.(status := CancelledTask, coverage := Some(Merge(Stored(t), FailureReport(Coverage.Cancelled))),
       closing := [TaskLoss(Coverage.Cancelled, None)])
  }

  /** Grant the lease; a checkpoint taken under another configuration is dropped. */
  function Lease(t: Task, engine: nat, discard: bool): Task {
    t.(status := Leased, engine := Some(engine), attempts := t.attempts + 1,
       checkpoint := if discard then 0 else t.checkpoint,
       discarded := if discard then t.discarded + [t.checkpoint] else t.discarded)
  }

  /**
   A lease claimed and then failed, because the pepper or the credential cannot be read. Unlike
   a cancellation this writes its report over the accumulated one.
   */
  function LeaseFails(t: Task, engine: nat, reason: Reason): Task {
    t.(status := FailedTask, engine := Some(engine), attempts := t.attempts + 1,
       coverage := Some(FailureReport(reason)), closing := [TaskLoss(reason, None)], replaced := true)
  }

  // ----- the whole system -----

  datatype System = System(task: Task, attempts: map<nat, Attempt>, wire: set<Progress>,
                           finals: set<Results>, replies: set<(Progress, nat)>)

  datatype Step =
    | StepLease(engine: nat, suppressed: set<Candidate>, discard: bool, ignores: bool)
    | StepLeaseFails(engine: nat, reason: Reason)
    | StepArrive(engine: nat)
    | StepProcess(engine: nat)
    | StepFlush(engine: nat)
    | StepRedeliver(engine: nat)
    | StepDeliver(message: Progress)
    | StepLose(message: Progress)
    | StepAcknowledge(engine: nat, reported: nat)
    | StepFinish(engine: nat, more: seq<Op>, completed: bool)
    | StepConclude(results: Results)
    | StepLoseResults(results: Results)
    | StepCrash(engine: nat)
    | StepReclaim
    | StepCancel

  function Start(): System {
    System(NewTask(), map[], {}, {}, {})
  }

  /** No attempt of this engine is running and none of its messages is still travelling. */
  predicate Quiet(s: System, engine: nat) {
    && engine !in s.attempts
    && (forall m :: m in s.wire ==> m.engine != engine)
    && (forall r :: r in s.finals ==> r.engine != engine)
  }

  predicate Enabled(w: Work, s: System, step: Step) {
    match step
    case StepLease(e, _, _, _) => s.task.status.Queued? && Quiet(s, e)
    case StepLeaseFails(e, _) => s.task.status.Queued? && Quiet(s, e)
    case StepArrive(e) => e in s.attempts && !s.attempts[e].arrived && s.attempts[e].pos < |w.units|
    case StepProcess(e) => e in s.attempts && s.attempts[e].arrived && s.attempts[e].pos < |w.units|
    case StepFlush(e) =>
      && e in s.attempts && s.attempts[e].arrived
      && s.attempts[e].ledger.pending.Some? && s.attempts[e].ledger.inFlight.None?
    case StepRedeliver(e) => e in s.attempts && s.attempts[e].arrived && s.attempts[e].ledger.inFlight.Some?
    case StepDeliver(m) => m in s.wire
    case StepLose(m) => m in s.wire
    case StepAcknowledge(e, reported) =>
      && e in s.attempts && s.attempts[e].ledger.inFlight.Some?
      && (s.attempts[e].ledger.inFlight.value.message, reported) in s.replies
    case StepFinish(e, more, completed) =>
      && e in s.attempts
      && (completed ==> s.attempts[e].pos == |w.units| && !s.attempts[e].arrived && more == w.tail)
    case StepConclude(r) => r in s.finals
    case StepLoseResults(r) => r in s.finals
    case StepCrash(e) => e in s.attempts
    case StepReclaim => s.task.status.Leased?
    case StepCancel => s.task.status.Queued? || s.task.status.Leased?
  }

  function Without(attempts: map<nat, Attempt>, engine: nat): map<nat, Attempt> {
    map e | e in attempts && e != engine :: attempts[e]
  }

  function RepliesTo(replies: set<(Progress, nat)>, engine: nat): set<(Progress, nat)> {
    set r | r in replies && r.0.engine == engine
  }

  function Next(w: Work, s: System, step: Step): System
    requires Enabled(w, s, step)
  {
    match step
    case StepLease(e, suppressed, discard, ignores) =>
      var t := Lease(s.task, e, discard);
      s.(task := t,
         attempts := s.attempts[e := NewAttempt(t.attempts, suppressed, t.checkpoint, t.sequence, ignores)],
         replies := s.replies - RepliesTo(s.replies, e))
    case StepLeaseFails(e, reason) => s.(task := LeaseFails(s.task, e, reason))
    case StepArrive(e) => s.(attempts := s.attempts[e := Arrived(w, s.attempts[e])])
    case StepProcess(e) => s.(attempts := s.attempts[e := Processed(w, s.attempts[e])])
    case StepFlush(e) =>
      var a := Flushed(s.attempts[e], e);
      s.(attempts := s.attempts[e := a], wire := s.wire + {a.ledger.inFlight.value.message})
    case StepRedeliver(e) => s.(wire := s.wire + {s.attempts[e].ledger.inFlight.value.message})
    case StepDeliver(m) =>
      var (t, reply) := SubmitProgress(s.task, m);
      s.(task := t, replies := if reply.Counter? then s.replies + {(m, reply.sequence)} else s.replies)
    case StepLose(m) => s.(wire := s.wire - {m})
    case StepAcknowledge(e, reported) =>
      s.(attempts := s.attempts[e := Acknowledged(s.attempts[e], reported)])
    case StepFinish(e, more, completed) =>
      var a := s.attempts[e];
      var arrived := if a.arrived && a.pos < |w.units| then w.units[a.pos].ops else [];
      s.(attempts := Without(s.attempts, e), finals := s.finals + {Terminal(a, e, more, completed, arrived + more)})
    case StepConclude(r) => s.(task := SubmitResults(s.task, r))
    case StepLoseResults(r) => s.(finals := s.finals - {r})
    case StepCrash(e) => s.(attempts := Without(s.attempts, e))
    case StepReclaim => s.(task := s.task.(status := Queued, engine := None))
    case StepCancel => s.(task := Cancel(s.task))
  }

  /** Whether a list of steps can be taken in order from the start, and where it leads. */
  predicate Legal(w: Work, steps: seq<Step>)
    decreases |steps|, 0
  {
    steps == [] ||
    (Legal(w, steps[..|steps| - 1]) &&
     Enabled(w, Run(w, steps[..|steps| - 1]), steps[|steps| - 1]))
  }

  function Run(w: Work, steps: seq<Step>): System
    requires Legal(w, steps)
    decreases |steps|, 1
  {
    if steps == [] then Start()
    else Next(w, Run(w, steps[..|steps| - 1]), steps[|steps| - 1])
  }
}
