/**
 The invariant of the batch protocol: what the task row, every running attempt, every
 travelling message and every reply say about the work, and that each step keeps it.
 */
module ProtocolInvariant {
  import opened Basics
  import opened Coverage
  import opened BatchProtocol

  // ----- slices of the work -----

  predicate InOrder(w: Work, start: nat, from: nat, upto: nat) {
    start <= from <= upto <= |w.units|
  }

  lemma {:induction false} OpsConcat(a: seq<Unit>, b: seq<Unit>)
    ensures OpsOf(a + b) == OpsOf(a) + OpsOf(b)
  {
    if b == [] {
      assert a + b == a;
    } else {
      assert (a + b)[..|a + b| - 1] == a + b[..|b| - 1];
      OpsConcat(a, b[..|b| - 1]);
    }
  }

  lemma {:induction false} CandidatesConcat(a: seq<Unit>, b: seq<Unit>)
    ensures CandidatesOf(a + b) == CandidatesOf(a) + CandidatesOf(b)
  {
    if b == [] {
      assert a + b == a;
    } else {
      assert (a + b)[..|a + b| - 1] == a + b[..|b| - 1];
      CandidatesConcat(a, b[..|b| - 1]);
    }
  }

  lemma TallyConcat(p: seq<Op>, q: seq<Op>, t: int, d: int, t': int, d': int)
    ensures TallyOf(p + q, t + t', d + d') == Plus(TallyOf(p, t, d), TallyOf(q, t', d'))
  {
    SumConcat(YieldedUnits, p, q);
    SumConcat(SkippedObjects, p, q);
    SumConcat(FailedUnits, p, q);
  }


  /** The tallies of a stretch of units followed by extra operations. */
  function StretchTally(us: seq<Unit>, extra: seq<Op>): Tally {
    TallyOf(OpsOf(us) + extra, Sum(TruncatedIn, us), Sum(DroppedIn, us))
  }

  lemma UnitTallyConcat(a: seq<Unit>, b: seq<Unit>)
    ensures UnitTally(a + b) == Plus(UnitTally(a), UnitTally(b))
  {
    OpsConcat(a, b);
    SumConcat(TruncatedIn, a, b);
    SumConcat(DroppedIn, a, b);
    TallyConcat(OpsOf(a), OpsOf(b), Sum(TruncatedIn, a), Sum(DroppedIn, a),
                Sum(TruncatedIn, b), Sum(DroppedIn, b));
  }

  lemma StretchTallyConcat(a: seq<Unit>, b: seq<Unit>, extra: seq<Op>)
    ensures StretchTally(a + b, extra) == Plus(UnitTally(a), StretchTally(b, extra))
  {
    OpsConcat(a, b);
    assert OpsOf(a) + OpsOf(b) + extra == OpsOf(a) + (OpsOf(b) + extra);
    SumConcat(TruncatedIn, a, b);
    SumConcat(DroppedIn, a, b);
    TallyConcat(OpsOf(a), OpsOf(b) + extra, Sum(TruncatedIn, a), Sum(DroppedIn, a),
                Sum(TruncatedIn, b), Sum(DroppedIn, b));
  }

  lemma Split(w: Work, start: nat, from: nat, upto: nat)
    requires InOrder(w, start, from, upto)
    ensures w.units[start..upto] == w.units[start..from] + w.units[from..upto]
  {
  }

  // ----- what history entries stand for -----

  function UnitsOf(w: Work, o: Origin): seq<Unit> {
    if o.from <= o.upto <= |w.units| then w.units[o.from..o.upto] else []
  }

  function UnitsIn(w: Work, h: seq<Origin>): seq<Unit> {
    if h == [] then [] else UnitsIn(w, h[..|h| - 1]) + UnitsOf(w, h[|h| - 1])
  }

  function FindingsIn(w: Work, h: seq<Origin>): seq<Candidate> {
    if h == [] then []
    else FindingsIn(w, h[..|h| - 1]) + Kept(CandidatesOf(UnitsOf(w, h[|h| - 1])), h[|h| - 1].suppressed)
  }

  function PrefilteredIn(w: Work, h: seq<Origin>): int {
    if h == [] then 0
    else PrefilteredIn(w, h[..|h| - 1]) +
         Prefiltered(CandidatesOf(UnitsOf(w, h[|h| - 1])), h[|h| - 1].suppressed)
  }

  /** The units counted again: the prefix each dropped position named. */
  function Dropped(w: Work, positions: seq<nat>): seq<Unit> {
    if positions == [] then []
    else Dropped(w, positions[..|positions| - 1]) + Prefix(w, positions[|positions| - 1])
  }

  function Prefix(w: Work, position: nat): seq<Unit> {
    if position <= |w.units| then w.units[..position] else []
  }

  lemma DroppedOne(w: Work, positions: seq<nat>, position: nat)
    requires position <= |w.units|
    ensures Dropped(w, positions + [position]) == Dropped(w, positions) + w.units[..position]
  {
    assert (positions + [position])[..|positions|] == positions;
  }

  /** Everything the API has accepted of this task: the batches, then the final body. */
  function Accepted(t: Task): seq<Origin> {
    if t.final.Some? then t.history + [t.final.value] else t.history
  }

  function AcceptedUnits(w: Work, t: Task): seq<Unit> {
    UnitsIn(w, Accepted(t))
  }

  /** Every operation the accepted messages reported. */
  function AcceptedOps(w: Work, t: Task): seq<Op> {
    if t.final.Some? then OpsOf(AcceptedUnits(w, t)) + t.final.value.extra
    else OpsOf(AcceptedUnits(w, t))
  }

  function AcceptedTally(w: Work, t: Task): Tally {
    if t.final.Some? then StretchTally(AcceptedUnits(w, t), t.final.value.extra)
    else UnitTally(AcceptedUnits(w, t))
  }

  /**
   What the stored report is about: the accepted operations and a cancellation if any, or only
   the failure a lease wrote over them.
   */
  function CoveredOps(w: Work, t: Task): seq<Op> {
    if t.replaced then t.closing
    else if t.closing == [] then AcceptedOps(w, t)
    else AcceptedOps(w, t) + t.closing
  }

  /** How far into the work the accepted messages reach. */
  function Through(t: Task): nat {
    if t.final.Some? then t.final.value.upto else t.checkpoint
  }

  // ----- the task row -----

  ghost predicate CoverageOk(w: Work, t: Task) {
    t.coverage ==
      if t.history == [] && t.final.None? && t.closing == [] then None
      else Some(Payload(CoveredOps(w, t)))
  }

  ghost predicate ContentOk(w: Work, t: Task) {
    && t.findings == FindingsIn(w, Accepted(t))
    && t.prefiltered == PrefilteredIn(w, Accepted(t))
    && t.tally == AcceptedTally(w, t)
  }

  predicate Live(t: Task) {
    t.status.Queued? || t.status.Leased?
  }

  /** The accepted units are those counted again and then the prefix the position names. */
  ghost predicate UnitsOk(w: Work, t: Task) {
    && t.checkpoint <= |w.units| && Through(t) <= |w.units|
    && AcceptedUnits(w, t) == Dropped(w, t.discarded) + w.units[..Through(t)]
  }

  predicate RowOk(t: Task) {
    && |t.history| == t.sequence
    && (t.final.Some? <==> t.resultKey.Some?)
    && (t.final.Some? ==> t.closing == [])
    && (Live(t) ==> t.final.None? && t.closing == [])
    && (t.status.Queued? ==> t.engine.None?)
    && (t.status.CancelledTask? ==> t.final.None?)
    && (t.status.CompletedTask? ==> t.final.Some?)
    && (t.status.FailedTask? ==> t.final.Some? || t.replaced)
    && (t.replaced ==> t.status.FailedTask? && t.final.None? && t.engine.Some? && t.closing != [])
  }

  /** A completed task was judged on its whole merged coverage, after the last unit. */
  ghost predicate VerdictOk(w: Work, t: Task) {
    t.status.CompletedTask? ==>
      && t.coverage.Some? && t.coverage.value.counts.failed == 0 && t.coverage.value.scope.gaps == 0
      && t.final.Some? && t.final.value.upto == |w.units| && t.final.value.extra == w.tail
  }

  ghost predicate TaskOk(w: Work, t: Task) {
    RowOk(t) && UnitsOk(w, t) && CoverageOk(w, t) && ContentOk(w, t) && VerdictOk(w, t)
  }

  // ----- messages -----

  /** The operations of units `[start, upto)`. */
  function OpsBetween(w: Work, start: nat, upto: nat): seq<Op>
    requires start <= upto <= |w.units|
  {
    OpsOf(w.units[start..upto])
  }

  ghost predicate ProgressOk(w: Work, m: Progress) {
    var o := m.origin;
    && InOrder(w, o.start, o.from, o.upto) && m.checkpoint == o.upto && o.extra == [] && m.sequence >= 1
    && m.findings == Kept(CandidatesOf(UnitsOf(w, o)), o.suppressed)
    && m.prefiltered == Prefiltered(CandidatesOf(UnitsOf(w, o)), o.suppressed)
    && m.tally == UnitTally(UnitsOf(w, o))
    && m.coverage == Delta(Payload(OpsBetween(w, o.start, o.upto)), Payload(OpsBetween(w, o.start, o.from)))
  }

  predicate Holds(t: Task, engine: nat) {
    t.engine == Some(engine) && t.resultKey.None? && !t.replaced
  }

  /** A message starts where the stored position stands, or from the top with that position set aside. */
  predicate Continues(t: Task, o: Origin) {
    if o.abandoned == [] then o.from == t.checkpoint else o.abandoned == [t.checkpoint] && o.from == 0
  }

  /** A batch the API could still take continues what is stored. */
  predicate ProgressFits(t: Task, m: Progress) {
    Holds(t, m.engine) ==>
      m.sequence <= t.sequence + 1 && (m.sequence == t.sequence + 1 ==> Continues(t, m.origin))
  }

  ghost predicate ResultsOk(w: Work, r: Results) {
    var o := r.origin;
    && InOrder(w, o.start, o.from, o.upto)
    && r.findings == Kept(CandidatesOf(UnitsOf(w, o)), o.suppressed)
    && r.prefiltered == Prefiltered(CandidatesOf(UnitsOf(w, o)), o.suppressed)
    && r.tally == StretchTally(UnitsOf(w, o), o.extra)
    && r.coverage == Delta(Payload(OpsBetween(w, o.start, o.upto) + o.extra),
                           Payload(OpsBetween(w, o.start, o.from)))
    && (r.completed ==> o.upto == |w.units| && o.extra == w.tail)
  }

  predicate ResultsFit(t: Task, r: Results) {
    Holds(t, r.engine) ==>
      r.sequence <= t.sequence && (r.sequence == t.sequence ==> Continues(t, r.origin))
  }

  // ----- attempts -----

  function BoundaryAt(w: Work, start: nat, pos: nat): Boundary
    requires start <= pos <= |w.units|
  {
    Boundary(|CandidatesOf(w.units[start..pos])|, Payload(OpsBetween(w, start, pos)),
             UnitTally(w.units[start..pos]))
  }

  ghost predicate ProgressOfAttempt(w: Work, a: Attempt) {
    && InOrder(w, a.start, a.sentPos, a.pos) && (a.arrived ==> a.pos < |w.units|)
    && a.ops == (if a.arrived then OpsBetween(w, a.start, a.pos) + w.units[a.pos].ops
                 else OpsBetween(w, a.start, a.pos))
    && a.candidates == CandidatesOf(w.units[a.start..a.pos])
    && a.truncated == Sum(TruncatedIn, w.units[a.start..a.pos])
    && a.dropped == Sum(DroppedIn, w.units[a.start..a.pos])
  }

  ghost predicate LedgerOk(w: Work, e: nat, a: Attempt)
    requires InOrder(w, a.start, a.sentPos, a.pos)
  {
    var l := a.ledger;
    && Boundary(l.sentCandidates, l.sentCoverage, l.sentTally) == BoundaryAt(w, a.start, a.sentPos)
    && (l.pending.Some? ==> l.pending.value == BoundaryAt(w, a.start, a.pos))
    && (l.inFlight.Some? ==> BatchOk(w, e, a, l.inFlight.value))
  }

  ghost predicate BatchOk(w: Work, e: nat, a: Attempt, b: Batch)
    requires InOrder(w, a.start, a.sentPos, a.pos)
  {
    var m := b.message;
    && m.engine == e && m.sequence == a.ledger.sequence + 1 && ProgressOk(w, m)
    && m.origin.start == a.start && m.origin.from == a.sentPos && m.origin.abandoned == a.abandoned
    && m.checkpoint <= a.pos && b.boundary == BoundaryAt(w, a.start, m.checkpoint)
  }

  /** The batches accepted from this attempt up to its own counter are what its ledger says. */
  ghost predicate LedgerInHistory(w: Work, t: Task, a: Attempt) {
    && a.start <= a.sentPos <= |w.units|
    && a.leased <= a.ledger.sequence <= |t.history|
    && UnitsIn(w, t.history[a.leased..a.ledger.sequence]) == w.units[a.start..a.sentPos]
  }

  /** What the attempt has had acknowledged ends where the stored position stands. */
  predicate StandsAt(t: Task, a: Attempt) {
    if a.abandoned == [] then a.sentPos == t.checkpoint else a.abandoned == [t.checkpoint] && a.sentPos == 0
  }

  /** The holder's ledger equals the store, or trails it by exactly the batch in flight. */
  predicate LedgerTrails(t: Task, e: nat, a: Attempt) {
    Holds(t, e) ==>
      || (t.sequence == a.ledger.sequence && StandsAt(t, a))
      || (&& t.sequence == a.ledger.sequence + 1 && a.ledger.inFlight.Some?
          && t.checkpoint == a.ledger.inFlight.value.message.checkpoint
          && a.ledger.sequence < |t.history|
          && t.history[a.ledger.sequence] == a.ledger.inFlight.value.message.origin)
  }

  predicate InFlightIs(a: Attempt, m: Progress) {
    a.ledger.inFlight.Some? && a.ledger.inFlight.value.message == m
  }

  /** Everything this engine has on the wire was acknowledged, or is the batch in flight. */
  predicate WireSettled(t: Task, wire: set<Progress>, e: nat, a: Attempt) {
    Holds(t, e) && (Live(t) || t.sequence > a.ledger.sequence) ==>
      forall m :: m in wire && m.engine == e ==> m.sequence <= a.ledger.sequence || InFlightIs(a, m)
  }

  ghost predicate AttemptOk(w: Work, t: Task, wire: set<Progress>, e: nat, a: Attempt) {
    && ProgressOfAttempt(w, a) && LedgerOk(w, e, a)
    && LedgerInHistory(w, t, a) && LedgerTrails(t, e, a) && WireSettled(t, wire, e, a)
  }

  // ----- replies -----

  /** A reply the ledger has not absorbed acknowledges its own batch, or refuses after cancellation. */
  predicate ReplyOk(t: Task, attempts: map<nat, Attempt>, m: Progress, n: nat) {
    m.engine in attempts && m.sequence > attempts[m.engine].ledger.sequence ==>
      if n < m.sequence then t.status.CancelledTask? && t.sequence == n
      else n == m.sequence && 1 <= n <= |t.history| && t.history[n - 1] == m.origin
  }

  // ----- the invariant -----

  ghost predicate AttemptsOk(w: Work, t: Task, wire: set<Progress>, attempts: map<nat, Attempt>) {
    forall e :: e in attempts ==> AttemptOk(w, t, wire, e, attempts[e])
  }

  ghost predicate WireOk(w: Work, t: Task, wire: set<Progress>) {
    forall m :: m in wire ==> ProgressOk(w, m) && ProgressFits(t, m)
  }

  ghost predicate FinalsOk(w: Work, t: Task, finals: set<Results>) {
    forall r :: r in finals ==> ResultsOk(w, r) && ResultsFit(t, r)
  }

  ghost predicate RepliesOk(t: Task, attempts: map<nat, Attempt>, replies: set<(Progress, nat)>) {
    forall m, n :: (m, n) in replies ==> ReplyOk(t, attempts, m, n)
  }

  /** The engine whose lease failed runs nothing. */
  predicate NoneRuns(t: Task, attempts: map<nat, Attempt>) {
    t.replaced && t.engine.Some? ==> t.engine.value !in attempts
  }

  ghost predicate Inv(w: Work, s: System) {
    && TaskOk(w, s.task) && AttemptsOk(w, s.task, s.wire, s.attempts)
    && WireOk(w, s.task, s.wire) && FinalsOk(w, s.task, s.finals)
    && RepliesOk(s.task, s.attempts, s.replies) && NoneRuns(s.task, s.attempts)
  }

  lemma StartOk(w: Work)
    ensures Inv(w, Start())
  {
  }

  // ----- steps of an attempt -----

  lemma OneAttempt(w: Work, t: Task, wire: set<Progress>, attempts: map<nat, Attempt>, e: nat, a: Attempt)
    requires AttemptsOk(w, t, wire, attempts)
    requires AttemptOk(w, t, wire, e, a)
    ensures AttemptsOk(w, t, wire, attempts[e := a])
  {
  }

  lemma SequenceGrows(t: Task, attempts: map<nat, Attempt>, replies: set<(Progress, nat)>, e: nat, a: Attempt)
    requires RepliesOk(t, attempts, replies)
    requires e in attempts && a.ledger.sequence >= attempts[e].ledger.sequence
    ensures RepliesOk(t, attempts[e := a], replies)
  {
    forall m, n | (m, n) in replies ensures ReplyOk(t, attempts[e := a], m, n) {
      assert ReplyOk(t, attempts, m, n);
    }
  }

  lemma ArrivedOk(w: Work, t: Task, wire: set<Progress>, e: nat, a: Attempt)
    requires AttemptOk(w, t, wire, e, a) && !a.arrived && a.pos < |w.units|
    ensures AttemptOk(w, t, wire, e, Arrived(w, a))
  {
    assert LedgerOk(w, e, Arrived(w, a));
    SameStanding(w, t, wire, e, a, Arrived(w, a));
  }

  lemma NextUnit(w: Work, start: nat, pos: nat)
    requires start <= pos < |w.units|
    ensures var u, done, next := w.units[pos], w.units[start..pos], w.units[start..pos + 1];
            && OpsOf(next) == OpsOf(done) + (u.ops + u.mark)
            && CandidatesOf(next) == CandidatesOf(done) + u.candidates
            && Sum(TruncatedIn, next) == Sum(TruncatedIn, done) + u.truncated
            && Sum(DroppedIn, next) == Sum(DroppedIn, done) + u.dropped
  {
    var next := w.units[start..pos + 1];
    assert next[..|next| - 1] == w.units[start..pos] && next[|next| - 1] == w.units[pos];
  }

  lemma ProcessedOps(w: Work, a: Attempt)
    requires ProgressOfAttempt(w, a) && a.arrived
    ensures a.ops + w.units[a.pos].mark == OpsBetween(w, a.start, a.pos + 1)
  {
    NextUnit(w, a.start, a.pos);
    var u, done := w.units[a.pos], OpsBetween(w, a.start, a.pos);
    assert done + u.ops + u.mark == done + (u.ops + u.mark);
  }

  lemma ProcessedContent(w: Work, a: Attempt)
    requires ProgressOfAttempt(w, a) && a.arrived
    ensures var u, done := w.units[a.pos], w.units[a.start..a.pos + 1];
            && a.candidates + u.candidates == CandidatesOf(done)
            && a.truncated + u.truncated == Sum(TruncatedIn, done) && a.dropped + u.dropped == Sum(DroppedIn, done)
  {
    NextUnit(w, a.start, a.pos);
  }

  lemma ProcessedProgress(w: Work, a: Attempt)
    requires ProgressOfAttempt(w, a) && a.arrived
    ensures ProgressOfAttempt(w, Processed(w, a))
  {
    ProcessedOps(w, a);
    ProcessedContent(w, a);
  }

  lemma ProcessedBoundary(w: Work, a: Attempt)
    requires ProgressOfAttempt(w, a) && !a.arrived
    ensures Boundary(|a.candidates|, Payload(a.ops), TallyOf(a.ops, a.truncated, a.dropped)) ==
            BoundaryAt(w, a.start, a.pos)
  {
  }

  /** A ledger carries over to a later position, given its boundary there. */
  lemma LedgerMovesOn(w: Work, e: nat, a: Attempt, b: Attempt)
    requires InOrder(w, a.start, a.sentPos, a.pos) && InOrder(w, b.start, b.sentPos, b.pos) && LedgerOk(w, e, a)
    requires b.start == a.start && b.sentPos == a.sentPos && b.pos >= a.pos && b.abandoned == a.abandoned
    requires b.ledger == a.ledger.(pending := b.ledger.pending)
    requires b.ledger.pending.Some? ==> b.ledger.pending.value == BoundaryAt(w, b.start, b.pos)
    ensures LedgerOk(w, e, b)
  {
    if a.ledger.inFlight.Some? {
      BatchStays(w, e, a, b, a.ledger.inFlight.value);
    }
  }

  lemma ProcessedShape(w: Work, a: Attempt)
    requires a.pos < |w.units|
    ensures var b := Processed(w, a);
            && b.start == a.start && b.sentPos == a.sentPos && b.pos == a.pos + 1 && !b.arrived
            && b.abandoned == a.abandoned
            && b.ledger == a.ledger.(pending := b.ledger.pending)
            && (b.ledger.pending.Some? ==>
                  b.ledger.pending.value ==
                      Boundary(|b.candidates|, Payload(b.ops), TallyOf(b.ops, b.truncated, b.dropped)))
  {
  }

  lemma LedgerAtBoundary(w: Work, e: nat, a: Attempt, b: Attempt)
    requires InOrder(w, a.start, a.sentPos, a.pos) && LedgerOk(w, e, a) && ProgressOfAttempt(w, b)
    requires b.start == a.start && b.sentPos == a.sentPos && b.pos == a.pos + 1 && !b.arrived
    requires b.abandoned == a.abandoned
    requires b.ledger == a.ledger.(pending := b.ledger.pending)
    requires b.ledger.pending.Some? ==>
               b.ledger.pending.value ==
                   Boundary(|b.candidates|, Payload(b.ops), TallyOf(b.ops, b.truncated, b.dropped))
    ensures LedgerOk(w, e, b)
  {
    ProcessedBoundary(w, b);
    LedgerMovesOn(w, e, a, b);
  }

  lemma ProcessedLedger(w: Work, e: nat, a: Attempt)
    requires ProgressOfAttempt(w, a) && LedgerOk(w, e, a) && a.arrived
    ensures ProgressOfAttempt(w, Processed(w, a)) && LedgerOk(w, e, Processed(w, a))
  {
    ProcessedProgress(w, a);
    ProcessedShape(w, a);
    LedgerAtBoundary(w, e, a, Processed(w, a));
  }

  lemma BatchStays(w: Work, e: nat, a: Attempt, a': Attempt, b: Batch)
    requires InOrder(w, a.start, a.sentPos, a.pos) && InOrder(w, a'.start, a'.sentPos, a'.pos)
    requires BatchOk(w, e, a, b) && a'.start == a.start && a'.sentPos == a.sentPos && a'.abandoned == a.abandoned
    requires a'.pos >= a.pos && a'.ledger.sequence == a.ledger.sequence
    ensures BatchOk(w, e, a', b)
  {
  }

  lemma ProcessedOk(w: Work, t: Task, wire: set<Progress>, e: nat, a: Attempt)
    requires AttemptOk(w, t, wire, e, a) && a.arrived
    ensures AttemptOk(w, t, wire, e, Processed(w, a))
  {
    ProcessedLedger(w, e, a);
    SameStanding(w, t, wire, e, a, Processed(w, a));
  }

  /** An attempt whose counters and batch in flight are unchanged stands as before. */
  lemma SameStanding(w: Work, t: Task, wire: set<Progress>, e: nat, a: Attempt, a': Attempt)
    requires LedgerInHistory(w, t, a) && LedgerTrails(t, e, a) && WireSettled(t, wire, e, a)
    requires a'.start == a.start && a'.sentPos == a.sentPos && a'.leased == a.leased
    requires a'.abandoned == a.abandoned
    requires a'.ledger.sequence == a.ledger.sequence && a'.ledger.inFlight == a.ledger.inFlight
    ensures LedgerInHistory(w, t, a') && LedgerTrails(t, e, a') && WireSettled(t, wire, e, a')
  {
  }

  lemma ArriveKeeps(w: Work, s: System, e: nat)
    requires Inv(w, s) && Enabled(w, s, StepArrive(e))
    ensures Inv(w, Next(w, s, StepArrive(e)))
  {
    var a' := Arrived(w, s.attempts[e]);
    ArrivedOk(w, s.task, s.wire, e, s.attempts[e]);
    OneAttempt(w, s.task, s.wire, s.attempts, e, a');
    SequenceGrows(s.task, s.attempts, s.replies, e, a');
  }

  lemma ProcessKeeps(w: Work, s: System, e: nat)
    requires Inv(w, s) && Enabled(w, s, StepProcess(e))
    ensures Inv(w, Next(w, s, StepProcess(e)))
  {
    var a' := Processed(w, s.attempts[e]);
    ProcessedOk(w, s.task, s.wire, e, s.attempts[e]);
    OneAttempt(w, s.task, s.wire, s.attempts, e, a');
    SequenceGrows(s.task, s.attempts, s.replies, e, a');
  }

  lemma UnsentIs(w: Work, e: nat, a: Attempt)
    requires ProgressOfAttempt(w, a) && LedgerOk(w, e, a)
    ensures a.ledger.sentCandidates <= |a.candidates|
    ensures a.candidates[a.ledger.sentCandidates..] == CandidatesOf(w.units[a.sentPos..a.pos])
    ensures a.ledger.pending.Some? ==> Unsent(a) == CandidatesOf(w.units[a.sentPos..a.pos])
  {
    Split(w, a.start, a.sentPos, a.pos);
    CandidatesConcat(w.units[a.start..a.sentPos], w.units[a.sentPos..a.pos]);
  }

  lemma TallyDifference(w: Work, start: nat, from: nat, upto: nat)
    requires InOrder(w, start, from, upto)
    ensures Minus(UnitTally(w.units[start..upto]), UnitTally(w.units[start..from])) ==
            UnitTally(w.units[from..upto])
  {
    Split(w, start, from, upto);
    UnitTallyConcat(w.units[start..from], w.units[from..upto]);
  }

  lemma FinalTallyDifference(w: Work, start: nat, from: nat, upto: nat, extra: seq<Op>)
    requires InOrder(w, start, from, upto)
    ensures Minus(StretchTally(w.units[start..upto], extra), UnitTally(w.units[start..from])) ==
            StretchTally(w.units[from..upto], extra)
  {
    Split(w, start, from, upto);
    StretchTallyConcat(w.units[start..from], w.units[from..upto], extra);
  }

  lemma FlushedMessage(w: Work, e: nat, a: Attempt)
    requires ProgressOfAttempt(w, a) && LedgerOk(w, e, a) && a.ledger.pending.Some?
    ensures ProgressOk(w, Flushed(a, e).ledger.inFlight.value.message)
  {
    var m := Flushed(a, e).ledger.inFlight.value.message;
    assert UnitsOf(w, m.origin) == w.units[a.sentPos..a.pos];
    assert m.findings == Kept(CandidatesOf(UnitsOf(w, m.origin)), a.suppressed)
           && m.prefiltered == Prefiltered(CandidatesOf(UnitsOf(w, m.origin)), a.suppressed) by {
      UnsentIs(w, e, a);
    }
    assert m.tally == UnitTally(UnitsOf(w, m.origin)) by {
      TallyDifference(w, a.start, a.sentPos, a.pos);
    }
  }

  lemma FlushedLedger(w: Work, e: nat, a: Attempt)
    requires ProgressOfAttempt(w, a) && LedgerOk(w, e, a) && a.ledger.pending.Some?
    ensures ProgressOfAttempt(w, Flushed(a, e)) && LedgerOk(w, e, Flushed(a, e))
    ensures ProgressOk(w, Flushed(a, e).ledger.inFlight.value.message)
  {
    FlushedMessage(w, e, a);
    var a' := Flushed(a, e);
    assert BatchOk(w, e, a', a'.ledger.inFlight.value);
  }

  lemma FlushedStanding(w: Work, t: Task, wire: set<Progress>, e: nat, a: Attempt)
    requires LedgerInHistory(w, t, a) && LedgerTrails(t, e, a) && WireSettled(t, wire, e, a)
    requires a.ledger.pending.Some? && a.ledger.inFlight.None?
    ensures var a' := Flushed(a, e);
            var m := a'.ledger.inFlight.value.message;
            && LedgerInHistory(w, t, a') && LedgerTrails(t, e, a') && WireSettled(t, wire + {m}, e, a')
            && ProgressFits(t, m)
  {
  }

  lemma FlushedOk(w: Work, t: Task, wire: set<Progress>, e: nat, a: Attempt)
    requires AttemptOk(w, t, wire, e, a) && a.ledger.pending.Some? && a.ledger.inFlight.None?
    ensures var a' := Flushed(a, e);
            var m := a'.ledger.inFlight.value.message;
            && AttemptOk(w, t, wire + {m}, e, a')
            && ProgressOk(w, m) && ProgressFits(t, m) && m.engine == e
  {
    FlushedLedger(w, e, a);
    FlushedStanding(w, t, wire, e, a);
  }

  lemma OthersUnaffected(w: Work, t: Task, wire: set<Progress>, attempts: map<nat, Attempt>, m: Progress)
    requires AttemptsOk(w, t, wire, attempts)
    ensures forall e :: e in attempts && e != m.engine ==> AttemptOk(w, t, wire + {m}, e, attempts[e])
  {
    forall e | e in attempts && e != m.engine ensures AttemptOk(w, t, wire + {m}, e, attempts[e]) {
      assert AttemptOk(w, t, wire, e, attempts[e]);
      assert WireSettled(t, wire + {m}, e, attempts[e]);
    }
  }

  lemma FlushKeeps(w: Work, s: System, e: nat)
    requires Inv(w, s) && Enabled(w, s, StepFlush(e))
    ensures Inv(w, Next(w, s, StepFlush(e)))
  {
    var a' := Flushed(s.attempts[e], e);
    var m := a'.ledger.inFlight.value.message;
    assert AttemptOk(w, s.task, s.wire, e, s.attempts[e]);
    FlushedOk(w, s.task, s.wire, e, s.attempts[e]);
    NewMessage(w, s.task, s.wire, s.attempts, m, a');
    SequenceGrows(s.task, s.attempts, s.replies, e, a');
  }

  lemma NewMessage(w: Work, t: Task, wire: set<Progress>, attempts: map<nat, Attempt>, m: Progress, a: Attempt)
    requires AttemptsOk(w, t, wire, attempts) && WireOk(w, t, wire)
    requires AttemptOk(w, t, wire + {m}, m.engine, a) && ProgressOk(w, m) && ProgressFits(t, m)
    ensures AttemptsOk(w, t, wire + {m}, attempts[m.engine := a]) && WireOk(w, t, wire + {m})
  {
    OthersUnaffected(w, t, wire, attempts, m);
    WireGrows(w, t, wire, m);
  }

  lemma WireGrows(w: Work, t: Task, wire: set<Progress>, m: Progress)
    requires WireOk(w, t, wire) && ProgressOk(w, m) && ProgressFits(t, m)
    ensures WireOk(w, t, wire + {m})
  {
  }

  lemma RedeliveredFits(w: Work, t: Task, wire: set<Progress>, e: nat, a: Attempt)
    requires AttemptOk(w, t, wire, e, a) && a.ledger.inFlight.Some?
    ensures var m := a.ledger.inFlight.value.message;
            ProgressOk(w, m) && ProgressFits(t, m) && m.engine == e && AttemptOk(w, t, wire + {m}, e, a)
  {
    assert BatchOk(w, e, a, a.ledger.inFlight.value);
  }

  /** Sending the batch in flight once more, verbatim, whether or not a copy still travels. */
  lemma RedeliverKeeps(w: Work, s: System, e: nat)
    requires Inv(w, s) && Enabled(w, s, StepRedeliver(e))
    ensures Inv(w, Next(w, s, StepRedeliver(e)))
  {
    var a := s.attempts[e];
    var m := a.ledger.inFlight.value.message;
    assert AttemptOk(w, s.task, s.wire, e, a);
    RedeliveredFits(w, s.task, s.wire, e, a);
    WireGrows(w, s.task, s.wire, m);
    OthersUnaffected(w, s.task, s.wire, s.attempts, m);
  }

  lemma UnitsInLast(w: Work, h: seq<Origin>)
    requires h != []
    ensures UnitsIn(w, h) == UnitsIn(w, h[..|h| - 1]) + UnitsOf(w, h[|h| - 1])
  {
  }

  lemma AbsorbedHistory(w: Work, t: Task, a: Attempt, m: Progress)
    requires LedgerInHistory(w, t, a)
    requires InOrder(w, a.start, a.sentPos, m.checkpoint) && m.checkpoint == m.origin.upto
    requires m.origin.from == a.sentPos
    requires a.ledger.sequence < |t.history| && t.history[a.ledger.sequence] == m.origin
    ensures UnitsIn(w, t.history[a.leased..a.ledger.sequence + 1]) == w.units[a.start..m.checkpoint]
  {
    var n := a.ledger.sequence;
    assert t.history[a.leased..n + 1] == t.history[a.leased..n] + [m.origin];
    AppendedUnits(w, t.history[a.leased..n], m.origin);
    Split(w, a.start, a.sentPos, m.checkpoint);
  }

  lemma AcceptedLedger(w: Work, e: nat, a: Attempt)
    requires ProgressOfAttempt(w, a) && LedgerOk(w, e, a) && a.ledger.inFlight.Some?
    ensures ProgressOfAttempt(w, Acknowledged(a, a.ledger.sequence + 1))
    ensures LedgerOk(w, e, Acknowledged(a, a.ledger.sequence + 1))
  {
    assert BatchOk(w, e, a, a.ledger.inFlight.value);
  }

  lemma AcceptedStanding(w: Work, t: Task, wire: set<Progress>, e: nat, a: Attempt)
    requires LedgerInHistory(w, t, a) && LedgerTrails(t, e, a) && WireSettled(t, wire, e, a)
    requires a.ledger.inFlight.Some? && |t.history| == t.sequence
    requires var m := a.ledger.inFlight.value.message;
             && InOrder(w, a.start, a.sentPos, m.checkpoint) && m.checkpoint == m.origin.upto
             && m.origin.from == a.sentPos && m.sequence == a.ledger.sequence + 1
             && a.ledger.sequence < |t.history| && t.history[a.ledger.sequence] == m.origin
    ensures var a' := Acknowledged(a, a.ledger.sequence + 1);
            LedgerInHistory(w, t, a') && LedgerTrails(t, e, a') && WireSettled(t, wire, e, a')
  {
    AbsorbedHistory(w, t, a, a.ledger.inFlight.value.message);
  }

  lemma AcceptedReply(w: Work, t: Task, wire: set<Progress>, e: nat, a: Attempt)
    requires AttemptOk(w, t, wire, e, a) && |t.history| == t.sequence && a.ledger.inFlight.Some?
    requires a.ledger.sequence < |t.history|
    requires t.history[a.ledger.sequence] == a.ledger.inFlight.value.message.origin
    ensures AttemptOk(w, t, wire, e, Acknowledged(a, a.ledger.sequence + 1))
  {
    assert BatchOk(w, e, a, a.ledger.inFlight.value);
    AcceptedLedger(w, e, a);
    AcceptedStanding(w, t, wire, e, a);
  }

  lemma RefusedReply(w: Work, t: Task, wire: set<Progress>, e: nat, a: Attempt, n: nat)
    requires AttemptOk(w, t, wire, e, a) && a.ledger.inFlight.Some?
    requires n < a.ledger.inFlight.value.message.sequence && t.status.CancelledTask? && t.sequence == n
    ensures AttemptOk(w, t, wire, e, Acknowledged(a, n))
  {
    assert BatchOk(w, e, a, a.ledger.inFlight.value);
    assert LedgerOk(w, e, Acknowledged(a, n));
  }

  lemma AcknowledgedGrows(a: Attempt, n: nat)
    requires a.ledger.inFlight.Some? && a.ledger.inFlight.value.message.sequence == a.ledger.sequence + 1
    ensures Acknowledged(a, n).ledger.sequence >= a.ledger.sequence
  {
  }

  lemma AnsweredOk(w: Work, t: Task, wire: set<Progress>, e: nat, a: Attempt, n: nat)
    requires AttemptOk(w, t, wire, e, a) && |t.history| == t.sequence && a.ledger.inFlight.Some?
    requires var m := a.ledger.inFlight.value.message;
             && m.sequence == a.ledger.sequence + 1
             && if n < m.sequence then t.status.CancelledTask? && t.sequence == n
                else n == m.sequence && n <= |t.history| && t.history[a.ledger.sequence] == m.origin
    ensures AttemptOk(w, t, wire, e, Acknowledged(a, n))
  {
    if n < a.ledger.inFlight.value.message.sequence {
      RefusedReply(w, t, wire, e, a, n);
    } else {
      AcceptedReply(w, t, wire, e, a);
    }
  }

  lemma AcknowledgedOk(w: Work, t: Task, wire: set<Progress>, attempts: map<nat, Attempt>, e: nat, n: nat)
    requires e in attempts && AttemptOk(w, t, wire, e, attempts[e])
    requires |t.history| == t.sequence && attempts[e].ledger.inFlight.Some?
    requires ReplyOk(t, attempts, attempts[e].ledger.inFlight.value.message, n)
    ensures AttemptOk(w, t, wire, e, Acknowledged(attempts[e], n))
    ensures Acknowledged(attempts[e], n).ledger.sequence >= attempts[e].ledger.sequence
  {
    var a := attempts[e];
    BatchIsNext(w, t, wire, e, a);
    ReplyMeans(t, attempts, e, a.ledger.inFlight.value.message, n);
    AcknowledgedGrows(a, n);
    AnsweredOk(w, t, wire, e, a, n);
  }

  lemma BatchIsNext(w: Work, t: Task, wire: set<Progress>, e: nat, a: Attempt)
    requires AttemptOk(w, t, wire, e, a) && a.ledger.inFlight.Some?
    ensures var m := a.ledger.inFlight.value.message; m.engine == e && m.sequence == a.ledger.sequence + 1
  {
    assert BatchOk(w, e, a, a.ledger.inFlight.value);
  }

  /** An answer to the batch after the ledger's counter: accepted as it is, or refused after cancellation. */
  lemma ReplyMeans(t: Task, attempts: map<nat, Attempt>, e: nat, m: Progress, n: nat)
    requires e in attempts && m.engine == e && m.sequence == attempts[e].ledger.sequence + 1
    requires ReplyOk(t, attempts, m, n) && |t.history| == t.sequence
    ensures if n < m.sequence then t.status.CancelledTask? && t.sequence == n
            else n == m.sequence && n <= |t.history| && t.history[attempts[e].ledger.sequence] == m.origin
  {
  }

  lemma AcknowledgeKeeps(w: Work, s: System, e: nat, n: nat)
    requires Inv(w, s) && Enabled(w, s, StepAcknowledge(e, n))
    ensures Inv(w, Next(w, s, StepAcknowledge(e, n)))
  {
    var a' := Acknowledged(s.attempts[e], n);
    AcknowledgedOk(w, s.task, s.wire, s.attempts, e, n);
    OneAttempt(w, s.task, s.wire, s.attempts, e, a');
    SequenceGrows(s.task, s.attempts, s.replies, e, a');
  }

  lemma CrashKeeps(w: Work, s: System, e: nat)
    requires Inv(w, s) && Enabled(w, s, StepCrash(e))
    ensures Inv(w, Next(w, s, StepCrash(e)))
  {
    RemovedReplies(s.task, s.attempts, s.replies, e);
  }

  lemma RemovedReplies(t: Task, attempts: map<nat, Attempt>, replies: set<(Progress, nat)>, e: nat)
    requires RepliesOk(t, attempts, replies)
    ensures RepliesOk(t, Without(attempts, e), replies)
  {
    forall m, n | (m, n) in replies ensures ReplyOk(t, Without(attempts, e), m, n) {
      assert ReplyOk(t, attempts, m, n);
    }
  }

  // ----- the terminal submission -----

  /** Grouping of what is recorded, in terms of plain sequences. */
  lemma Regrouped(ops: seq<Op>, done: seq<Op>, arrived: seq<Op>, more: seq<Op>)
    requires ops == done + arrived || (ops == done && arrived == [])
    ensures ops + more == done + (arrived + more)
  {
  }

  lemma TerminalCoverage(w: Work, e: nat, a: Attempt, more: seq<Op>, arrived: seq<Op>)
    requires ProgressOfAttempt(w, a)
    requires arrived == if a.arrived then w.units[a.pos].ops else []
    ensures a.ops + more == OpsBetween(w, a.start, a.pos) + (arrived + more)
  {
    Regrouped(a.ops, OpsBetween(w, a.start, a.pos), arrived, more);
  }

  lemma TerminalContent(w: Work, e: nat, a: Attempt, more: seq<Op>, completed: bool, extra: seq<Op>)
    requires ProgressOfAttempt(w, a) && LedgerOk(w, e, a)
    requires a.ops + more == OpsBetween(w, a.start, a.pos) + extra
    requires completed ==> a.pos == |w.units| && extra == w.tail
    ensures ResultsOk(w, Terminal(a, e, more, completed, extra))
  {
    var r := Terminal(a, e, more, completed, extra);
    assert UnitsOf(w, r.origin) == w.units[a.sentPos..a.pos];
    assert r.findings == Kept(CandidatesOf(UnitsOf(w, r.origin)), a.suppressed)
           && r.prefiltered == Prefiltered(CandidatesOf(UnitsOf(w, r.origin)), a.suppressed) by {
      UnsentIs(w, e, a);
    }
    assert r.tally == StretchTally(UnitsOf(w, r.origin), extra) by {
      FinalTallyDifference(w, a.start, a.sentPos, a.pos, extra);
    }
  }

  lemma TerminalOk(w: Work, t: Task, wire: set<Progress>, e: nat, a: Attempt, more: seq<Op>,
                   completed: bool, arrived: seq<Op>)
    requires AttemptOk(w, t, wire, e, a)
    requires completed ==> a.pos == |w.units| && !a.arrived && more == w.tail
    requires arrived == if a.arrived then w.units[a.pos].ops else []
    ensures var r := Terminal(a, e, more, completed, arrived + more);
            ResultsOk(w, r) && ResultsFit(t, r)
  {
    TerminalCoverage(w, e, a, more, arrived);
    assert completed ==> arrived + more == w.tail;
    TerminalContent(w, e, a, more, completed, arrived + more);
  }

  lemma NewResults(w: Work, t: Task, finals: set<Results>, r: Results)
    requires FinalsOk(w, t, finals) && ResultsOk(w, r) && ResultsFit(t, r)
    ensures FinalsOk(w, t, finals + {r})
  {
  }

  lemma FewerAttempts(w: Work, t: Task, wire: set<Progress>, attempts: map<nat, Attempt>, e: nat)
    requires AttemptsOk(w, t, wire, attempts)
    ensures AttemptsOk(w, t, wire, Without(attempts, e))
  {
  }

  lemma FinishKeeps(w: Work, s: System, e: nat, more: seq<Op>, completed: bool)
    requires Inv(w, s) && Enabled(w, s, StepFinish(e, more, completed))
    ensures Inv(w, Next(w, s, StepFinish(e, more, completed)))
  {
    var a := s.attempts[e];
    var arrived := if a.arrived && a.pos < |w.units| then w.units[a.pos].ops else [];
    assert AttemptOk(w, s.task, s.wire, e, a);
    TerminalOk(w, s.task, s.wire, e, a, more, completed, arrived);
    NewResults(w, s.task, s.finals, Terminal(a, e, more, completed, arrived + more));
    FewerAttempts(w, s.task, s.wire, s.attempts, e);
    RemovedReplies(s.task, s.attempts, s.replies, e);
  }

  // ----- the API accepts a batch or the final body -----

  ghost predicate AllWhole(us: seq<Unit>) {
    forall i :: 0 <= i < |us| ==> WholeUnits(us[i].ops + us[i].mark)
  }

  lemma {:induction false} WholeOps(us: seq<Unit>)
    requires AllWhole(us)
    ensures WholeUnits(OpsOf(us))
  {
    if us != [] {
      var before, last := us[..|us| - 1], us[|us| - 1];
      WholeOps(before);
      WholeUnitsConcat(OpsOf(before), last.ops + last.mark);
    }
  }

  lemma {:induction false} DroppedAreWhole(w: Work, positions: seq<nat>)
    requires WellFormed(w)
    ensures AllWhole(Dropped(w, positions))
  {
    if positions != [] {
      DroppedAreWhole(w, positions[..|positions| - 1]);
    }
  }

  lemma StoredIsWhole(w: Work, t: Task)
    requires WellFormed(w) && UnitsOk(w, t) && CoverageOk(w, t) && RowOk(t) && Live(t) && t.history != []
    ensures Stored(t) == Some(Payload(OpsOf(UnitsIn(w, t.history))))
  {
    var us := UnitsIn(w, t.history);
    DroppedAreWhole(w, t.discarded);
    assert AllWhole(us);
    WholeOps(us);
    PayloadAccepted(OpsOf(us));
  }

  /** What was accepted before the attempt a message belongs to. */
  ghost function Earlier(w: Work, t: Task, o: Origin): seq<Unit>
    requires o.start <= |w.units|
  {
    if o.abandoned == [] then Dropped(w, t.discarded) + w.units[..o.start] else UnitsIn(w, t.history)
  }

  lemma SplitAt(repeated: seq<Unit>, units: seq<Unit>, start: nat, from: nat)
    requires start <= from <= |units|
    ensures repeated + units[..from] == repeated + units[..start] + units[start..from]
  {
  }

  /** What is accepted ends with what the message's own attempt has had accepted. */
  lemma EndsWithOwn(w: Work, t: Task, o: Origin)
    requires UnitsOk(w, t) && t.final.None? && Continues(t, o) && InOrder(w, o.start, o.from, o.upto)
    ensures UnitsIn(w, t.history) == Earlier(w, t, o) + w.units[o.start..o.from]
  {
    if o.abandoned == [] {
      SplitAt(Dropped(w, t.discarded), w.units, o.start, o.from);
    } else {
      NothingAdded(UnitsIn(w, t.history), w.units[o.start..o.from]);
    }
  }

  lemma NothingAdded(us: seq<Unit>, none: seq<Unit>)
    requires |none| == 0
    ensures us == us + none
  {
  }

  /** One more difference on top of what the row holds gives the report of everything. */
  lemma AccumulatedCoverage(w: Work, t: Task, o: Origin, added: seq<Op>)
    requires WellFormed(w) && UnitsOk(w, t) && CoverageOk(w, t) && RowOk(t) && Live(t)
    requires Continues(t, o) && InOrder(w, o.start, o.from, o.upto)
    ensures var own := OpsBetween(w, o.start, o.from);
            Merge(Stored(t), Delta(Payload(own + added), Payload(own))) ==
            Payload(OpsOf(UnitsIn(w, t.history)) + added)
  {
    var own := OpsBetween(w, o.start, o.from);
    EndsWithOwn(w, t, o);
    if t.history == [] {
      FirstAccumulation(w, t, w.units[o.start..o.from], added);
    } else {
      StoredIsWhole(w, t);
      OpsConcat(Earlier(w, t, o), w.units[o.start..o.from]);
      MergeOfDeltaIsWhole(OpsOf(Earlier(w, t, o)), own, added);
    }
  }

  lemma FirstAccumulation(w: Work, t: Task, own: seq<Unit>, added: seq<Op>)
    requires CoverageOk(w, t) && RowOk(t) && Live(t) && t.history == [] && |own| <= |UnitsIn(w, t.history)|
    ensures Stored(t) == None && OpsOf(UnitsIn(w, t.history)) + added == added
    ensures Delta(Payload(OpsOf(own) + added), Payload(OpsOf(own))) == Payload(added)
  {
    assert UnitsIn(w, t.history) == [];
    assert |own| == 0 && |OpsOf(own)| == 0;
    PayloadOfNothing(OpsOf(own));
    assert OpsOf(own) + added == added;
    FirstDeltaIsPayload(added);
  }

  lemma OpsSplit(w: Work, start: nat, from: nat, upto: nat)
    requires InOrder(w, start, from, upto)
    ensures OpsBetween(w, start, upto) == OpsBetween(w, start, from) + OpsBetween(w, from, upto)
  {
    Split(w, start, from, upto);
    OpsConcat(w.units[start..from], w.units[from..upto]);
  }

  lemma AppendedUnits(w: Work, h: seq<Origin>, o: Origin)
    requires o.from <= o.upto <= |w.units|
    ensures UnitsIn(w, h + [o]) == UnitsIn(w, h) + w.units[o.from..o.upto]
  {
    var all := h + [o];
    assert all[..|all| - 1] == h && all[|all| - 1] == o;
    UnitsInLast(w, all);
  }

  lemma Grown(repeated: seq<Unit>, units: seq<Unit>, from: nat, upto: nat)
    requires from <= upto <= |units|
    ensures repeated + units[..from] + units[from..upto] == repeated + units[..upto]
  {
  }

  /** One more message: the prefix it starts before, if it starts from the top, is counted again. */
  lemma GrownBy(w: Work, t: Task, o: Origin)
    requires UnitsOk(w, t) && t.final.None? && Continues(t, o) && o.from <= o.upto <= |w.units|
    ensures UnitsIn(w, t.history + [o]) == Dropped(w, t.discarded + o.abandoned) + w.units[..o.upto]
  {
    AppendedUnits(w, t.history, o);
    if o.abandoned == [] {
      assert t.discarded + o.abandoned == t.discarded;
      Grown(Dropped(w, t.discarded), w.units, o.from, o.upto);
    } else {
      DroppedOne(w, t.discarded, t.checkpoint);
      assert w.units[0..o.upto] == w.units[..o.upto];
    }
  }

  lemma AdvancedRow(w: Work, t: Task, m: Progress)
    requires RowOk(t) && UnitsOk(w, t) && Advances(t, m) && ProgressOk(w, m) && Continues(t, m.origin)
    ensures RowOk(Advance(t, m)) && UnitsOk(w, Advance(t, m))
  {
    GrownBy(w, t, m.origin);
    assert |Advance(t, m).history| == m.sequence;
  }

  lemma AdvancedReport(w: Work, t: Task, o: Origin, coverage: Report)
    requires WellFormed(w) && UnitsOk(w, t) && CoverageOk(w, t) && RowOk(t) && Live(t)
    requires InOrder(w, o.start, o.from, o.upto) && Continues(t, o)
    requires coverage == Delta(Payload(OpsBetween(w, o.start, o.upto)),
                               Payload(OpsBetween(w, o.start, o.from)))
    ensures Merge(Stored(t), coverage) == Payload(OpsOf(UnitsIn(w, t.history + [o])))
  {
    OpsSplit(w, o.start, o.from, o.upto);
    AccumulatedCoverage(w, t, o, OpsBetween(w, o.from, o.upto));
    AppendedOps(w, t.history, o);
  }

  lemma AdvancedCoverage(w: Work, t: Task, m: Progress)
    requires WellFormed(w) && RowOk(t) && UnitsOk(w, t) && CoverageOk(w, t)
    requires Advances(t, m) && ProgressOk(w, m) && Continues(t, m.origin)
    ensures CoverageOk(w, Advance(t, m))
  {
    AdvancedReport(w, t, m.origin, m.coverage);
  }

  lemma AppendedOps(w: Work, h: seq<Origin>, o: Origin)
    requires o.from <= o.upto <= |w.units|
    ensures OpsOf(UnitsIn(w, h + [o])) == OpsOf(UnitsIn(w, h)) + OpsBetween(w, o.from, o.upto)
  {
    AppendedUnits(w, h, o);
    OpsConcat(UnitsIn(w, h), w.units[o.from..o.upto]);
  }

  lemma AdvancedContent(w: Work, t: Task, m: Progress)
    requires ContentOk(w, t) && t.final.None?
    requires m.origin.from <= m.origin.upto <= |w.units| && m.tally == UnitTally(UnitsOf(w, m.origin))
    requires m.findings == Kept(CandidatesOf(UnitsOf(w, m.origin)), m.origin.suppressed)
    requires m.prefiltered == Prefiltered(CandidatesOf(UnitsOf(w, m.origin)), m.origin.suppressed)
    ensures ContentOk(w, Advance(t, m))
  {
    var o := m.origin;
    AppendedFindings(w, t.history, o);
    AdvancedTally(w, t.history, o);
  }

  lemma AdvancedTally(w: Work, h: seq<Origin>, o: Origin)
    requires o.from <= o.upto <= |w.units|
    ensures UnitTally(UnitsIn(w, h + [o])) == Plus(UnitTally(UnitsIn(w, h)), UnitTally(UnitsOf(w, o)))
  {
    AppendedUnits(w, h, o);
    UnitTallyConcat(UnitsIn(w, h), w.units[o.from..o.upto]);
  }

  lemma AdvancedHistory(w: Work, t: Task, a: Attempt, o: Origin)
    requires LedgerInHistory(w, t, a)
    ensures LedgerInHistory(w, t.(history := t.history + [o]), a)
  {
    var n := a.ledger.sequence;
    assert (t.history + [o])[a.leased..n] == t.history[a.leased..n];
  }

  lemma AdvancedStanding(t: Task, wire: set<Progress>, e: nat, a: Attempt, m: Progress)
    requires LedgerTrails(t, e, a) && WireSettled(t, wire, e, a) && m in wire
    requires a.ledger.inFlight.Some? ==> a.ledger.inFlight.value.message.sequence == a.ledger.sequence + 1
    requires Advances(t, m) && |t.history| == t.sequence && m.checkpoint == m.origin.upto
    ensures LedgerTrails(Advance(t, m), e, a) && WireSettled(Advance(t, m), wire, e, a)
  {
  }

  lemma AdvancedAttempt(w: Work, t: Task, wire: set<Progress>, e: nat, a: Attempt, m: Progress)
    requires AttemptOk(w, t, wire, e, a) && m in wire
    requires Advances(t, m) && m.checkpoint == m.origin.upto && |t.history| == t.sequence
    ensures AttemptOk(w, Advance(t, m), wire, e, a)
  {
    assert a.ledger.inFlight.Some? ==> BatchOk(w, e, a, a.ledger.inFlight.value);
    AdvancedHistory(w, t, a, m.origin);
    assert LedgerInHistory(w, Advance(t, m), a);
    AdvancedStanding(t, wire, e, a, m);
  }

  lemma AdvancedMessages(w: Work, t: Task, wire: set<Progress>, finals: set<Results>, m: Progress)
    requires WireOk(w, t, wire) && FinalsOk(w, t, finals) && Advances(t, m)
    ensures WireOk(w, Advance(t, m), wire) && FinalsOk(w, Advance(t, m), finals)
  {
  }

  lemma AdvancedReplies(t: Task, attempts: map<nat, Attempt>, replies: set<(Progress, nat)>, m: Progress)
    requires RepliesOk(t, attempts, replies) && Advances(t, m) && |t.history| == t.sequence
    ensures RepliesOk(Advance(t, m), attempts, replies + {(m, m.sequence)})
  {
    forall x, n | (x, n) in replies + {(m, m.sequence)}
      ensures ReplyOk(Advance(t, m), attempts, x, n)
    {
      if (x, n) in replies { assert ReplyOk(t, attempts, x, n); }
    }
  }

  lemma ReplayedOk(w: Work, t: Task, wire: set<Progress>, e: nat, a: Attempt, m: Progress)
    requires |t.history| == t.sequence && (Live(t) || t.status.CancelledTask?)
    requires (t.status.Queued? ==> t.engine.None?)
    requires m.engine == e && m in wire && Holds(t, e) && !Advances(t, m)
    requires LedgerTrails(t, e, a) && WireSettled(t, wire, e, a)
    requires a.ledger.inFlight.Some? ==> a.ledger.inFlight.value.message.sequence == a.ledger.sequence + 1
    requires m.sequence > a.ledger.sequence
    ensures if t.sequence < m.sequence then t.status.CancelledTask?
            else t.sequence == m.sequence && t.history[t.sequence - 1] == m.origin
  {
  }

  lemma ReplayedReply(w: Work, t: Task, wire: set<Progress>, attempts: map<nat, Attempt>,
                      replies: set<(Progress, nat)>, m: Progress)
    requires RowOk(t) && AttemptsOk(w, t, wire, attempts) && m in wire
    requires RepliesOk(t, attempts, replies) && NoneRuns(t, attempts)
    requires t.engine == Some(m.engine) && t.resultKey.None? && !Advances(t, m)
    ensures RepliesOk(t, attempts, replies + {(m, t.sequence)})
  {
    assert ReplyOk(t, attempts, m, t.sequence) by {
      if m.engine in attempts && m.sequence > attempts[m.engine].ledger.sequence {
        var a := attempts[m.engine];
        assert AttemptOk(w, t, wire, m.engine, a);
        ReplayedOk(w, t, wire, m.engine, a, m);
      }
    }
    forall x, n | (x, n) in replies + {(m, t.sequence)} ensures ReplyOk(t, attempts, x, n) {
      if (x, n) in replies { assert ReplyOk(t, attempts, x, n); }
    }
  }

  lemma AdvanceKeeps(w: Work, s: System, m: Progress)
    requires WellFormed(w) && Inv(w, s) && m in s.wire && Advances(s.task, m)
    ensures Inv(w, s.(task := Advance(s.task, m), replies := s.replies + {(m, m.sequence)}))
  {
    assert ProgressOk(w, m) && ProgressFits(s.task, m);
    AdvancedRow(w, s.task, m);
    AdvancedCoverage(w, s.task, m);
    AdvancedContent(w, s.task, m);
    forall e | e in s.attempts ensures AttemptOk(w, Advance(s.task, m), s.wire, e, s.attempts[e]) {
      assert AttemptOk(w, s.task, s.wire, e, s.attempts[e]);
      AdvancedAttempt(w, s.task, s.wire, e, s.attempts[e], m);
    }
    AdvancedMessages(w, s.task, s.wire, s.finals, m);
    AdvancedReplies(s.task, s.attempts, s.replies, m);
  }

  lemma ReplayKeeps(w: Work, s: System, m: Progress)
    requires Inv(w, s) && m in s.wire && !Advances(s.task, m)
    requires s.task.engine == Some(m.engine) && s.task.resultKey.None?
    ensures Inv(w, s.(replies := s.replies + {(m, s.task.sequence)}))
  {
    ReplayedReply(w, s.task, s.wire, s.attempts, s.replies, m);
  }

  lemma Delivered(w: Work, s: System, m: Progress)
    requires Enabled(w, s, StepDeliver(m))
    ensures var next := Next(w, s, StepDeliver(m));
            || next == s
            || (Advances(s.task, m) && next == s.(task := Advance(s.task, m), replies := s.replies + {(m, m.sequence)}))
            || (&& s.task.engine == Some(m.engine) && s.task.resultKey.None? && !Advances(s.task, m)
                && next == s.(replies := s.replies + {(m, s.task.sequence)}))
  {
  }

  lemma DeliverKeeps(w: Work, s: System, m: Progress)
    requires WellFormed(w) && Inv(w, s) && Enabled(w, s, StepDeliver(m))
    ensures Inv(w, Next(w, s, StepDeliver(m)))
  {
    Delivered(w, s, m);
    if Advances(s.task, m) {
      AdvanceKeeps(w, s, m);
    } else if s.task.engine == Some(m.engine) && s.task.resultKey.None? {
      ReplayKeeps(w, s, m);
    }
  }

  lemma LoseKeeps(w: Work, s: System, m: Progress)
    requires Inv(w, s) && Enabled(w, s, StepLose(m))
    ensures Inv(w, Next(w, s, StepLose(m)))
  {
    forall e | e in s.attempts ensures AttemptOk(w, s.task, s.wire - {m}, e, s.attempts[e]) {
      assert AttemptOk(w, s.task, s.wire, e, s.attempts[e]);
    }
  }

  lemma LoseResultsKeeps(w: Work, s: System, r: Results)
    requires Inv(w, s) && Enabled(w, s, StepLoseResults(r))
    ensures Inv(w, Next(w, s, StepLoseResults(r)))
  {
  }

  lemma ConcludedCoverage(w: Work, t: Task, r: Results)
    requires WellFormed(w) && RowOk(t) && UnitsOk(w, t) && CoverageOk(w, t) && Live(t)
    requires ResultsOk(w, r) && r.sequence == t.sequence && Continues(t, r.origin)
    ensures CoverageOk(w, Conclude(t, r))
  {
    ConcludedReport(w, t, r.origin, r.coverage);
    if r.sequence == 0 {
      assert t.history == [] && Stored(t) == None;
    }
  }

  lemma ConcludedReport(w: Work, t: Task, o: Origin, coverage: Report)
    requires WellFormed(w) && RowOk(t) && UnitsOk(w, t) && CoverageOk(w, t) && Live(t)
    requires InOrder(w, o.start, o.from, o.upto) && Continues(t, o)
    requires coverage == Delta(Payload(OpsBetween(w, o.start, o.upto) + o.extra),
                               Payload(OpsBetween(w, o.start, o.from)))
    ensures Merge(Stored(t), coverage) == Payload(OpsOf(UnitsIn(w, t.history + [o])) + o.extra)
  {
    var added := OpsBetween(w, o.from, o.upto) + o.extra;
    ConcludedOps(w, t.history, o);
    AccumulatedCoverage(w, t, o, added);
  }

  lemma ConcludedOps(w: Work, h: seq<Origin>, o: Origin)
    requires InOrder(w, o.start, o.from, o.upto)
    ensures var added := OpsBetween(w, o.from, o.upto) + o.extra;
            && OpsBetween(w, o.start, o.upto) + o.extra == OpsBetween(w, o.start, o.from) + added
            && OpsOf(UnitsIn(w, h + [o])) + o.extra == OpsOf(UnitsIn(w, h)) + added
  {
    OpsSplit(w, o.start, o.from, o.upto);
    AppendedOps(w, h, o);
    Reassociate(OpsBetween(w, o.start, o.from), OpsBetween(w, o.from, o.upto), o.extra);
    Reassociate(OpsOf(UnitsIn(w, h)), OpsBetween(w, o.from, o.upto), o.extra);
  }

  lemma Reassociate<T>(a: seq<T>, b: seq<T>, c: seq<T>)
    ensures a + b + c == a + (b + c)
  {
  }

  lemma AppendedFindings(w: Work, h: seq<Origin>, o: Origin)
    ensures FindingsIn(w, h + [o]) == FindingsIn(w, h) + Kept(CandidatesOf(UnitsOf(w, o)), o.suppressed)
    ensures PrefilteredIn(w, h + [o]) ==
            PrefilteredIn(w, h) + Prefiltered(CandidatesOf(UnitsOf(w, o)), o.suppressed)
  {
    var all := h + [o];
    assert all[..|all| - 1] == h && all[|all| - 1] == o;
  }

  lemma ConcludedContent(w: Work, t: Task, r: Results)
    requires ContentOk(w, t) && t.final.None?
    requires r.origin.from <= r.origin.upto <= |w.units|
    requires r.tally == StretchTally(UnitsOf(w, r.origin), r.origin.extra)
    requires r.findings == Kept(CandidatesOf(UnitsOf(w, r.origin)), r.origin.suppressed)
    requires r.prefiltered == Prefiltered(CandidatesOf(UnitsOf(w, r.origin)), r.origin.suppressed)
    ensures ContentOk(w, Conclude(t, r))
  {
    AppendedFindings(w, t.history, r.origin);
    AppendedUnits(w, t.history, r.origin);
    StretchTallyConcat(UnitsIn(w, t.history), UnitsOf(w, r.origin), r.origin.extra);
  }

  lemma ConcludedReplies(t: Task, attempts: map<nat, Attempt>, replies: set<(Progress, nat)>, r: Results)
    requires RepliesOk(t, attempts, replies) && Live(t)
    ensures RepliesOk(Conclude(t, r), attempts, replies)
  {
    forall m, n | (m, n) in replies ensures ReplyOk(Conclude(t, r), attempts, m, n) {
      assert ReplyOk(t, attempts, m, n);
    }
  }

  lemma ConcludedRow(w: Work, t: Task, r: Results)
    requires RowOk(t) && UnitsOk(w, t) && Live(t) && ResultsOk(w, r) && Continues(t, r.origin)
    ensures RowOk(Conclude(t, r)) && UnitsOk(w, Conclude(t, r)) && VerdictOk(w, Conclude(t, r))
  {
    GrownBy(w, t, r.origin);
  }

  lemma ConcludedAttempts(w: Work, t: Task, wire: set<Progress>, attempts: map<nat, Attempt>, r: Results)
    requires AttemptsOk(w, t, wire, attempts)
    ensures AttemptsOk(w, Conclude(t, r), wire, attempts)
  {
    forall e | e in attempts ensures AttemptOk(w, Conclude(t, r), wire, e, attempts[e]) {
      assert AttemptOk(w, t, wire, e, attempts[e]);
    }
  }

  lemma ConcludedMessages(w: Work, t: Task, wire: set<Progress>, finals: set<Results>, r: Results)
    requires WireOk(w, t, wire) && FinalsOk(w, t, finals)
    ensures WireOk(w, Conclude(t, r), wire) && FinalsOk(w, Conclude(t, r), finals)
  {
  }

  lemma ConcludedTask(w: Work, t: Task, r: Results)
    requires WellFormed(w) && TaskOk(w, t) && Live(t)
    requires ResultsOk(w, r) && r.sequence == t.sequence && Continues(t, r.origin)
    ensures TaskOk(w, Conclude(t, r))
  {
    ConcludedRow(w, t, r);
    ConcludedCoverage(w, t, r);
    ConcludedContent(w, t, r);
  }

  lemma ConcludeKeeps(w: Work, s: System, r: Results)
    requires WellFormed(w) && Inv(w, s) && Enabled(w, s, StepConclude(r))
    ensures Inv(w, Next(w, s, StepConclude(r)))
  {
    var t := s.task;
    if Concludes(t, r) {
      assert ResultsOk(w, r) && ResultsFit(t, r);
      ConcludedTask(w, t, r);
      ConcludedReplies(t, s.attempts, s.replies, r);
      ConcludedAttempts(w, t, s.wire, s.attempts, r);
      ConcludedMessages(w, t, s.wire, s.finals, r);
      assert Next(w, s, StepConclude(r)) == s.(task := Conclude(t, r));
    }
  }

  // ----- leases -----

  lemma LeasedRow(w: Work, t: Task, e: nat, discard: bool)
    requires TaskOk(w, t) && t.status.Queued?
    ensures TaskOk(w, Lease(t, e, discard))
  {
    var t' := Lease(t, e, discard);
    LeasedUnits(w, t, e, discard);
    SameContent(w, t, t');
    assert AcceptedOps(w, t') == AcceptedOps(w, t);
  }

  lemma LeasedUnits(w: Work, t: Task, e: nat, discard: bool)
    requires UnitsOk(w, t) && t.final.None?
    ensures UnitsOk(w, Lease(t, e, discard))
  {
    if discard {
      DroppedOne(w, t.discarded, t.checkpoint);
      assert |w.units[..0]| == 0;
    }
  }

  lemma NewLedgerOk(w: Work, e: nat, a: Attempt)
    requires a.start == a.sentPos == a.pos <= |w.units| && a.ledger == NewLedger(a.leased)
    ensures LedgerOk(w, e, a)
  {
    var none := w.units[a.start..a.sentPos];
    assert |none| == 0;
    PayloadOfNothing(OpsOf(none));
  }

  lemma NewProgressOk(w: Work, a: Attempt)
    requires a.start == a.sentPos == a.pos <= |w.units| && !a.arrived
    requires a.ops == [] && a.candidates == [] && a.truncated == 0 && a.dropped == 0
    ensures ProgressOfAttempt(w, a)
  {
    var none := w.units[a.start..a.pos];
    assert |none| == 0;
  }

  lemma NewStanding(w: Work, t: Task, wire: set<Progress>, e: nat, a: Attempt)
    requires a.start == a.sentPos <= |w.units| && |t.history| == t.sequence && StandsAt(t, a)
    requires forall m :: m in wire ==> m.engine != e
    requires a.leased == a.ledger.sequence == t.sequence
    ensures LedgerInHistory(w, t, a) && LedgerTrails(t, e, a) && WireSettled(t, wire, e, a)
  {
    var batches := t.history[a.leased..a.ledger.sequence];
    assert |batches| == 0;
  }

  lemma NewAttemptOk(w: Work, t: Task, wire: set<Progress>, e: nat, number: nat, suppressed: set<Candidate>,
                     ignores: bool)
    requires t.checkpoint <= |w.units| && |t.history| == t.sequence
    requires forall m :: m in wire ==> m.engine != e
    ensures AttemptOk(w, t, wire, e, NewAttempt(number, suppressed, t.checkpoint, t.sequence, ignores))
  {
    var a := NewAttempt(number, suppressed, t.checkpoint, t.sequence, ignores);
    NewLedgerOk(w, e, a);
    NewProgressOk(w, a);
    NewStanding(w, t, wire, e, a);
  }

  lemma LeasedOthers(w: Work, t: Task, t': Task, wire: set<Progress>, attempts: map<nat, Attempt>, e: nat)
    requires AttemptsOk(w, t, wire, attempts) && e !in attempts
    requires t'.engine == Some(e) && t'.history == t.history
    ensures AttemptsOk(w, t', wire, attempts)
  {
    forall x | x in attempts ensures AttemptOk(w, t', wire, x, attempts[x]) {
      assert AttemptOk(w, t, wire, x, attempts[x]);
    }
  }

  lemma LeasedReplies(t: Task, t': Task, attempts: map<nat, Attempt>, replies: set<(Progress, nat)>,
                      e: nat, a: Attempt)
    requires RepliesOk(t, attempts, replies) && t.status.Queued? && t'.history == t.history
    ensures RepliesOk(t', attempts[e := a], replies - RepliesTo(replies, e))
  {
    forall m, n | (m, n) in replies - RepliesTo(replies, e) ensures ReplyOk(t', attempts[e := a], m, n) {
      assert (m, n) in replies && ReplyOk(t, attempts, m, n);
      assert m.engine != e;
    }
  }

  lemma LeasedAttempts(w: Work, t: Task, t': Task, wire: set<Progress>, attempts: map<nat, Attempt>,
                       e: nat, suppressed: set<Candidate>, ignores: bool)
    requires AttemptsOk(w, t, wire, attempts) && e !in attempts
    requires t'.engine == Some(e) && t'.history == t.history
    requires t'.checkpoint <= |w.units| && |t'.history| == t'.sequence
    requires forall m :: m in wire ==> m.engine != e
    ensures AttemptsOk(w, t', wire,
              attempts[e := NewAttempt(t'.attempts, suppressed, t'.checkpoint, t'.sequence, ignores)])
  {
    LeasedOthers(w, t, t', wire, attempts, e);
    NewAttemptOk(w, t', wire, e, t'.attempts, suppressed, ignores);
    OneAttempt(w, t', wire, attempts, e,
               NewAttempt(t'.attempts, suppressed, t'.checkpoint, t'.sequence, ignores));
  }

  lemma LeaseKeeps(w: Work, s: System, e: nat, suppressed: set<Candidate>, discard: bool, ignores: bool)
    requires Inv(w, s) && Enabled(w, s, StepLease(e, suppressed, discard, ignores))
    ensures Inv(w, Next(w, s, StepLease(e, suppressed, discard, ignores)))
  {
    var t' := Lease(s.task, e, discard);
    var a := NewAttempt(t'.attempts, suppressed, t'.checkpoint, t'.sequence, ignores);
    LeasedRow(w, s.task, e, discard);
    LeasedAttempts(w, s.task, t', s.wire, s.attempts, e, suppressed, ignores);
    LeasedReplies(s.task, t', s.attempts, s.replies, e, a);
    LeasedMessages(w, s.task, t', s.wire, s.finals, e);
    assert Next(w, s, StepLease(e, suppressed, discard, ignores)) ==
           s.(task := t', attempts := s.attempts[e := a], replies := s.replies - RepliesTo(s.replies, e));
  }

  lemma FailedLeaseRow(w: Work, t: Task, e: nat, reason: Reason)
    requires TaskOk(w, t) && t.status.Queued?
    ensures TaskOk(w, LeaseFails(t, e, reason))
  {
    var t' := LeaseFails(t, e, reason);
    SameContent(w, t, t');
    PayloadOfTaskLoss([TaskLoss(reason, None)], reason);
  }

  lemma FailedLeaseReplies(t: Task, t': Task, attempts: map<nat, Attempt>, replies: set<(Progress, nat)>)
    requires RepliesOk(t, attempts, replies) && t.status.Queued? && t'.history == t.history
    ensures RepliesOk(t', attempts, replies)
  {
    forall m, n | (m, n) in replies ensures ReplyOk(t', attempts, m, n) {
      assert ReplyOk(t, attempts, m, n);
    }
  }

  /** A lease that fails after the claim ends the task and starts no attempt. */
  lemma LeaseFailsKeeps(w: Work, s: System, e: nat, reason: Reason)
    requires Inv(w, s) && Enabled(w, s, StepLeaseFails(e, reason))
    ensures Inv(w, Next(w, s, StepLeaseFails(e, reason)))
  {
    var t' := LeaseFails(s.task, e, reason);
    FailedLeaseRow(w, s.task, e, reason);
    LeasedOthers(w, s.task, t', s.wire, s.attempts, e);
    FailedLeaseReplies(s.task, t', s.attempts, s.replies);
    LeasedMessages(w, s.task, t', s.wire, s.finals, e);
  }

  lemma LeasedMessages(w: Work, t: Task, t': Task, wire: set<Progress>, finals: set<Results>, e: nat)
    requires WireOk(w, t, wire) && FinalsOk(w, t, finals) && t'.engine == Some(e)
    requires forall m :: m in wire ==> m.engine != e
    requires forall r :: r in finals ==> r.engine != e
    ensures WireOk(w, t', wire) && FinalsOk(w, t', finals)
  {
  }

  lemma ReclaimKeeps(w: Work, s: System)
    requires Inv(w, s) && Enabled(w, s, StepReclaim)
    ensures Inv(w, Next(w, s, StepReclaim))
  {
    var t, t' := s.task, s.task.(status := Queued, engine := None);
    assert TaskOk(w, t');
    forall e | e in s.attempts ensures AttemptOk(w, t', s.wire, e, s.attempts[e]) {
      assert AttemptOk(w, t, s.wire, e, s.attempts[e]);
    }
    forall m, n | (m, n) in s.replies ensures ReplyOk(t', s.attempts, m, n) {
      assert ReplyOk(t, s.attempts, m, n);
    }
  }

  lemma CancelledCoverage(w: Work, t: Task)
    requires WellFormed(w) && RowOk(t) && UnitsOk(w, t) && CoverageOk(w, t) && Live(t)
    ensures CoverageOk(w, Cancel(t))
  {
    var gap := [TaskLoss(Coverage.Cancelled, None)];
    PayloadOfTaskLoss(gap, Coverage.Cancelled);
    var ops := OpsOf(UnitsIn(w, t.history));
    if t.history == [] {
      assert ops == [] && ops + gap == gap;
    } else {
      StoredIsWhole(w, t);
      MergePayloads(ops, gap);
    }
  }

  lemma CancelledAttempts(w: Work, t: Task, wire: set<Progress>, attempts: map<nat, Attempt>)
    requires AttemptsOk(w, t, wire, attempts) && Live(t)
    ensures AttemptsOk(w, Cancel(t), wire, attempts)
  {
    forall e | e in attempts ensures AttemptOk(w, Cancel(t), wire, e, attempts[e]) {
      assert AttemptOk(w, t, wire, e, attempts[e]);
    }
  }

  lemma SameContent(w: Work, t: Task, t': Task)
    requires ContentOk(w, t)
    requires t'.history == t.history && t'.final == t.final
    requires t'.findings == t.findings && t'.prefiltered == t.prefiltered && t'.tally == t.tally
    ensures ContentOk(w, t')
  {
  }

  lemma CancelledTaskOk(w: Work, t: Task)
    requires WellFormed(w) && TaskOk(w, t) && Live(t)
    ensures TaskOk(w, Cancel(t))
  {
    CancelledCoverage(w, t);
    SameContent(w, t, Cancel(t));
    CancelledRow(w, t);
  }

  lemma CancelledRow(w: Work, t: Task)
    requires RowOk(t) && UnitsOk(w, t) && Live(t)
    ensures RowOk(Cancel(t)) && UnitsOk(w, Cancel(t))
  {
  }

  lemma CancelledReplies(t: Task, attempts: map<nat, Attempt>, replies: set<(Progress, nat)>)
    requires RepliesOk(t, attempts, replies) && Live(t)
    ensures RepliesOk(Cancel(t), attempts, replies)
  {
    forall m, n | (m, n) in replies ensures ReplyOk(Cancel(t), attempts, m, n) {
      assert ReplyOk(t, attempts, m, n);
    }
  }

  lemma CancelledMessages(w: Work, t: Task, wire: set<Progress>, finals: set<Results>)
    requires WireOk(w, t, wire) && FinalsOk(w, t, finals)
    ensures WireOk(w, Cancel(t), wire) && FinalsOk(w, Cancel(t), finals)
  {
  }

  lemma CancelKeeps(w: Work, s: System)
    requires WellFormed(w) && Inv(w, s) && Enabled(w, s, StepCancel)
    ensures Inv(w, Next(w, s, StepCancel))
  {
    CancelledTaskOk(w, s.task);
    CancelledAttempts(w, s.task, s.wire, s.attempts);
    CancelledReplies(s.task, s.attempts, s.replies);
    CancelledMessages(w, s.task, s.wire, s.finals);
  }

  // ----- every step, every run -----

  predicate IsFetchStep(step: Step) {
    step.StepArrive? || step.StepProcess? || step.StepCrash?
  }

  predicate IsBatchStep(step: Step) {
    step.StepFlush? || step.StepRedeliver? || step.StepAcknowledge? || step.StepFinish?
  }

  predicate IsNetworkStep(step: Step) {
    step.StepDeliver? || step.StepLose? || step.StepConclude? || step.StepLoseResults?
  }

  lemma FetchStepKeeps(w: Work, s: System, step: Step)
    requires WellFormed(w) && Inv(w, s) && Enabled(w, s, step) && IsFetchStep(step)
    ensures Inv(w, Next(w, s, step))
  {
    match step
    case StepArrive(e) => ArriveKeeps(w, s, e);
    case StepProcess(e) => ProcessKeeps(w, s, e);
    case StepCrash(e) => CrashKeeps(w, s, e);
  }

  lemma BatchStepKeeps(w: Work, s: System, step: Step)
    requires WellFormed(w) && Inv(w, s) && Enabled(w, s, step) && IsBatchStep(step)
    ensures Inv(w, Next(w, s, step))
  {
    match step
    case StepFlush(e) => FlushKeeps(w, s, e);
    case StepRedeliver(e) => RedeliverKeeps(w, s, e);
    case StepAcknowledge(e, n) => AcknowledgeKeeps(w, s, e, n);
    case StepFinish(e, more, completed) => FinishKeeps(w, s, e, more, completed);
  }

  lemma NetworkStepKeeps(w: Work, s: System, step: Step)
    requires WellFormed(w) && Inv(w, s) && Enabled(w, s, step) && IsNetworkStep(step)
    ensures Inv(w, Next(w, s, step))
  {
    match step
    case StepDeliver(m) => DeliverKeeps(w, s, m);
    case StepLose(m) => LoseKeeps(w, s, m);
    case StepConclude(r) => ConcludeKeeps(w, s, r);
    case StepLoseResults(r) => LoseResultsKeeps(w, s, r);
  }

  lemma StepKeeps(w: Work, s: System, step: Step)
    requires WellFormed(w) && Inv(w, s) && Enabled(w, s, step)
    ensures Inv(w, Next(w, s, step))
  {
    if IsFetchStep(step) {
      FetchStepKeeps(w, s, step);
    } else if IsBatchStep(step) {
      BatchStepKeeps(w, s, step);
    } else if IsNetworkStep(step) {
      NetworkStepKeeps(w, s, step);
    } else {
      match step
      case StepLease(e, suppressed, discard, ignores) => LeaseKeeps(w, s, e, suppressed, discard, ignores);
      case StepLeaseFails(e, reason) => LeaseFailsKeeps(w, s, e, reason);
      case StepReclaim => ReclaimKeeps(w, s);
      case StepCancel => CancelKeeps(w, s);
    }
  }

  lemma {:induction false} RunKeeps(w: Work, steps: seq<Step>)
    requires WellFormed(w) && Legal(w, steps)
    ensures Inv(w, Run(w, steps))
  {
    if steps == [] {
      StartOk(w);
    } else {
      RunKeeps(w, steps[..|steps| - 1]);
      StepKeeps(w, Run(w, steps[..|steps| - 1]), steps[|steps| - 1]);
    }
  }
}
