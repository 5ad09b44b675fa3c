/**
 The runner's fetch inside the whole system: whatever other engines, the API, the network and the
 analysts do between and during its turns, its turns are steps of a run of the batch protocol, so
 everything proved of every run holds of it.
 */
module RunnerTheorems {
  import opened Basics
  import Coverage
  import opened BatchProtocol
  import opened ProtocolInvariant
  import opened Batcher
  import opened Runner

  // ----- what everybody else does -----

  /** A step this engine's attempt does not take itself. */
  predicate Foreign(step: Step, e: nat) {
    match step
    case StepArrive(x) => x != e
    case StepProcess(x) => x != e
    case StepFlush(x) => x != e
    case StepRedeliver(x) => x != e
    case StepAcknowledge(x, _) => x != e
    case StepFinish(x, _, _) => x != e
    case StepCrash(x) => x != e
    case _ => true
  }

  predicate AllForeign(steps: seq<Step>, e: nat) {
    forall i :: 0 <= i < |steps| ==> Foreign(steps[i], e)
  }

  /** A step that cannot be taken does not happen. */
  function Try(w: Work, s: System, step: Step): System {
    if Enabled(w, s, step) then Next(w, s, step) else s
  }

  function Meanwhile(w: Work, s: System, steps: seq<Step>): System {
    if steps == [] then s else Try(w, Meanwhile(w, s, steps[..|steps| - 1]), steps[|steps| - 1])
  }

  ghost predicate Reached(w: Work, s: System) {
    exists steps :: Legal(w, steps) && Run(w, steps) == s
  }

  lemma TryReaches(w: Work, s: System, step: Step)
    requires Reached(w, s)
    ensures Reached(w, Try(w, s, step))
  {
    if Enabled(w, s, step) {
      var steps :| Legal(w, steps) && Run(w, steps) == s;
      var more := steps + [step];
      assert more[..|more| - 1] == steps;
      assert Legal(w, more) && Run(w, more) == Next(w, s, step);
    }
  }

  lemma {:induction false} MeanwhileReaches(w: Work, s: System, steps: seq<Step>)
    requires Reached(w, s)
    ensures Reached(w, Meanwhile(w, s, steps))
  {
    if steps != [] {
      MeanwhileReaches(w, s, steps[..|steps| - 1]);
      TryReaches(w, Meanwhile(w, s, steps[..|steps| - 1]), steps[|steps| - 1]);
    }
  }

  /** The engine runs this attempt. */
  predicate RunsAs(s: System, e: nat, a: Attempt) {
    e in s.attempts && s.attempts[e] == a
  }

  lemma ForeignLeaves(w: Work, s: System, step: Step, e: nat, a: Attempt)
    requires RunsAs(s, e, a) && Foreign(step, e)
    ensures RunsAs(Try(w, s, step), e, a)
  {
  }

  lemma {:induction false} MeanwhileLeaves(w: Work, s: System, steps: seq<Step>, e: nat, a: Attempt)
    requires RunsAs(s, e, a) && AllForeign(steps, e)
    ensures RunsAs(Meanwhile(w, s, steps), e, a)
  {
    if steps != [] {
      MeanwhileLeaves(w, s, steps[..|steps| - 1], e, a);
      ForeignLeaves(w, Meanwhile(w, s, steps[..|steps| - 1]), steps[|steps| - 1], e, a);
    }
  }

  // ----- one turn -----

  /** What others do before the unit of a turn arrives, and while a batch and its answer travel. */
  datatype Interlude = Interlude(before: seq<Step>, during: seq<Step>)

  predicate FromOthers(i: Interlude, e: nat) {
    AllForeign(i.before, e) && AllForeign(i.during, e)
  }

  function Sending(a: Attempt, e: nat): Step {
    if a.ledger.inFlight.Some? then StepRedeliver(e) else StepFlush(e)
  }

  /** The system when the batch of a due flush is out and others have moved. */
  function Out(w: Work, s: System, r: Running, e: nat, i: Interlude): System {
    Meanwhile(w, Try(w, Try(w, Meanwhile(w, s, i.before), StepArrive(e)), Sending(r.a, e)), i.during)
  }

  /** The system when the next unit has arrived and the boundary before it is dealt with. */
  function ToBoundary(w: Work, s: System, r: Running, e: nat, m: Moment, i: Interlude): System
    requires r.a.pos < |w.units|
  {
    if !Flushes(Arriving(w, r), m) then Try(w, Meanwhile(w, s, i.before), StepArrive(e))
    else if m.answer.None? then Out(w, s, r, e, i)
    else Try(w, Out(w, s, r, e, i), StepAcknowledge(e, m.answer.value))
  }

  /** The batch on the wire. */
  function Offered(a: Attempt, e: nat): Progress
    requires a.ledger.inFlight.Some? || a.ledger.pending.Some?
  {
    if a.ledger.inFlight.Some? then a.ledger.inFlight.value.message else Flushed(a, e).ledger.inFlight.value.message
  }

  /** An answer is one the API gave to the batch that was offered. */
  predicate Honest(w: Work, s: System, r: Running, e: nat, m: Moment, i: Interlude)
    requires r.a.pos < |w.units|
  {
    Flushes(Arriving(w, r), m) && m.answer.Some? ==>
      (Offered(Arriving(w, r).a, e), m.answer.value) in Out(w, s, r, e, i).replies
  }

  lemma ArrivesAs(w: Work, s: System, e: nat, r: Running)
    requires RunsAs(s, e, r.a) && !r.a.arrived && r.a.pos < |w.units|
    ensures RunsAs(Try(w, s, StepArrive(e)), e, Arriving(w, r).a)
  {
  }

  lemma SendsAs(w: Work, s: System, e: nat, a: Attempt)
    requires RunsAs(s, e, a) && a.arrived && (a.ledger.inFlight.Some? || a.ledger.pending.Some?)
    ensures RunsAs(Try(w, s, Sending(a, e)), e, Exchanged(a, e, None))
  {
  }

  lemma HearsAs(w: Work, s: System, e: nat, a: Attempt, n: nat)
    requires a.ledger.inFlight.Some? || a.ledger.pending.Some?
    requires RunsAs(s, e, Exchanged(a, e, None)) && (Offered(a, e), n) in s.replies
    ensures RunsAs(Try(w, s, StepAcknowledge(e, n)), e, Exchanged(a, e, Some(n)))
  {
  }

  lemma BoundaryIsSteps(w: Work, s: System, r: Running, e: nat, m: Moment, i: Interlude)
    requires RunsAs(s, e, r.a) && !r.a.arrived && r.a.pos < |w.units|
    requires FromOthers(i, e) && Honest(w, s, r, e, m, i)
    ensures RunsAs(ToBoundary(w, s, r, e, m, i), e, AtBoundary(Arriving(w, r), e, m).a)
  {
    var arriving := Arriving(w, r);
    MeanwhileLeaves(w, s, i.before, e, r.a);
    ArrivesAs(w, Meanwhile(w, s, i.before), e, r);
    if Flushes(arriving, m) {
      var arrived := Try(w, Meanwhile(w, s, i.before), StepArrive(e));
      SendsAs(w, arrived, e, arriving.a);
      MeanwhileLeaves(w, Try(w, arrived, Sending(arriving.a, e)), i.during, e, Exchanged(arriving.a, e, None));
      if m.answer.Some? {
        HearsAs(w, Out(w, s, r, e, i), e, arriving.a, m.answer.value);
      }
    }
  }

  lemma BoundaryReaches(w: Work, s: System, r: Running, e: nat, m: Moment, i: Interlude)
    requires Reached(w, s) && r.a.pos < |w.units|
    ensures Reached(w, ToBoundary(w, s, r, e, m, i))
  {
    var before := Meanwhile(w, s, i.before);
    var arrived := Try(w, before, StepArrive(e));
    MeanwhileReaches(w, s, i.before);
    TryReaches(w, before, StepArrive(e));
    TryReaches(w, arrived, Sending(r.a, e));
    MeanwhileReaches(w, Try(w, arrived, Sending(r.a, e)), i.during);
    if m.answer.Some? {
      TryReaches(w, Out(w, s, r, e, i), StepAcknowledge(e, m.answer.value));
    }
  }

  function AfterTurn(w: Work, s: System, r: Running, e: nat, m: Moment, i: Interlude): System
    requires r.a.pos < |w.units|
  {
    Try(w, ToBoundary(w, s, r, e, m, i), StepProcess(e))
  }

  /** A turn of the loop is a stretch of a run, with what everybody else does in between. */
  lemma TurnIsSteps(w: Work, s: System, r: Running, e: nat, m: Moment, i: Interlude)
    requires Reached(w, s) && RunsAs(s, e, r.a) && !r.a.arrived && r.a.pos < |w.units|
    requires FromOthers(i, e) && Honest(w, s, r, e, m, i)
    ensures var after := AfterTurn(w, s, r, e, m, i);
            Reached(w, after) && RunsAs(after, e, Turn(w, r, e, m).a)
  {
    BoundaryIsSteps(w, s, r, e, m, i);
    BoundaryReaches(w, s, r, e, m, i);
    StillAhead(Arriving(w, r), e, m);
    TryReaches(w, ToBoundary(w, s, r, e, m, i), StepProcess(e));
  }

  // ----- the whole fetch -----

  function AfterTurns(w: Work, s: System, r: Running, e: nat, ms: seq<Moment>,
                      others: seq<Interlude>): System
    requires r.a.pos + |ms| <= |w.units| && !r.a.arrived && |others| == |ms|
  {
    if ms == [] then s
    else
      var k := |ms| - 1;
      AfterTurn(w, AfterTurns(w, s, r, e, ms[..k], others[..k]), Turns(w, r, e, ms[..k]), e, ms[k], others[k])
  }

  /** Every answer the fetch hears was given to the batch it offered. */
  predicate AllHonest(w: Work, s: System, r: Running, e: nat, ms: seq<Moment>, others: seq<Interlude>)
    requires r.a.pos + |ms| <= |w.units| && !r.a.arrived && |others| == |ms|
  {
    ms == [] ||
    (var k := |ms| - 1;
     && AllHonest(w, s, r, e, ms[..k], others[..k])
     && FromOthers(others[k], e)
     && Honest(w, AfterTurns(w, s, r, e, ms[..k], others[..k]), Turns(w, r, e, ms[..k]), e, ms[k], others[k]))
  }

  lemma {:induction false} TurnsAreSteps(w: Work, s: System, r: Running, e: nat, ms: seq<Moment>,
                                         others: seq<Interlude>)
    requires r.a.pos + |ms| <= |w.units| && !r.a.arrived && |others| == |ms|
    requires Reached(w, s) && RunsAs(s, e, r.a) && AllHonest(w, s, r, e, ms, others)
    ensures var after := AfterTurns(w, s, r, e, ms, others);
            Reached(w, after) && RunsAs(after, e, Turns(w, r, e, ms).a)
  {
    if ms != [] {
      var k := |ms| - 1;
      TurnsAreSteps(w, s, r, e, ms[..k], others[..k]);
      TurnIsSteps(w, AfterTurns(w, s, r, e, ms[..k], others[..k]), Turns(w, r, e, ms[..k]), e, ms[k], others[k]);
    }
  }

  lemma ReachedIsOk(w: Work, s: System)
    requires WellFormed(w) && Reached(w, s)
    ensures Inv(w, s)
  {
    var steps :| Legal(w, steps) && Run(w, steps) == s;
    RunKeeps(w, steps);
  }

  /**
   After any number of turns among everything else, the runner's ledger is what the protocol says it
   must be: what it takes for accepted is what the row accepted from it, and the row is at most the
   batch in flight ahead.
   */
  lemma LedgerStaysOk(w: Work, s: System, r: Running, e: nat, ms: seq<Moment>, others: seq<Interlude>)
    requires WellFormed(w) && r.a.pos + |ms| <= |w.units| && !r.a.arrived && |others| == |ms|
    requires Reached(w, s) && RunsAs(s, e, r.a) && AllHonest(w, s, r, e, ms, others)
    ensures var after := AfterTurns(w, s, r, e, ms, others);
            AttemptOk(w, after.task, after.wire, e, Turns(w, r, e, ms).a)
  {
    TurnsAreSteps(w, s, r, e, ms, others);
    ReachedIsOk(w, AfterTurns(w, s, r, e, ms, others));
  }

  // ----- the end -----

  /** The system after the fetch has ended, with what others do before that. */
  function AfterEnd(w: Work, s: System, r: Running, e: nat, ending: Ending, i: Interlude): System
    requires CanEnd(w, r.a.pos, ending)
  {
    match ending
    case Exhausted => Try(w, Meanwhile(w, s, i.before), StepFinish(e, w.tail, Clean(r.a, w.tail)))
    case Raised(more) => Try(w, Meanwhile(w, s, i.before), StepFinish(e, more, false))
    case Broken(m, more) => Try(w, ToBoundary(w, s, r, e, m, i), StepFinish(e, more, false))
    case Cancelled => Try(w, Try(w, Meanwhile(w, s, i.before), StepArrive(e)), StepCrash(e))
  }

  predicate HonestEnd(w: Work, s: System, r: Running, e: nat, ending: Ending, i: Interlude)
    requires CanEnd(w, r.a.pos, ending)
  {
    FromOthers(i, e) && (ending.Broken? ==> Honest(w, s, r, e, ending.moment, i))
  }

  lemma FinishesAs(w: Work, s: System, e: nat, a: Attempt, more: seq<Coverage.Op>, completed: bool)
    requires RunsAs(s, e, a)
    requires completed ==> a.pos == |w.units| && !a.arrived && more == w.tail
    ensures var extra := (if a.arrived && a.pos < |w.units| then w.units[a.pos].ops else []) + more;
            var after := Try(w, s, StepFinish(e, more, completed));
            e !in after.attempts && Terminal(a, e, more, completed, extra) in after.finals
  {
  }

  lemma EndReaches(w: Work, s: System, r: Running, e: nat, ending: Ending, i: Interlude)
    requires Reached(w, s) && CanEnd(w, r.a.pos, ending)
    ensures Reached(w, AfterEnd(w, s, r, e, ending, i))
  {
    var before := Meanwhile(w, s, i.before);
    MeanwhileReaches(w, s, i.before);
    match ending
    case Exhausted => TryReaches(w, before, StepFinish(e, w.tail, Clean(r.a, w.tail)));
    case Raised(more) => TryReaches(w, before, StepFinish(e, more, false));
    case Broken(m, more) =>
      BoundaryReaches(w, s, r, e, m, i);
      TryReaches(w, ToBoundary(w, s, r, e, m, i), StepFinish(e, more, false));
    case Cancelled =>
      TryReaches(w, before, StepArrive(e));
      TryReaches(w, Try(w, before, StepArrive(e)), StepCrash(e));
  }

  /** The fetch leaves the system, and its report, if there is one, is on the wire. */
  lemma EndIsSteps(w: Work, s: System, r: Running, e: nat, ending: Ending, i: Interlude)
    requires RunsAs(s, e, r.a) && !r.a.arrived && CanEnd(w, r.a.pos, ending)
    requires HonestEnd(w, s, r, e, ending, i)
    ensures var after, results := AfterEnd(w, s, r, e, ending, i), Submission(w, r, e, ending);
            e !in after.attempts && (results.Some? ==> results.value in after.finals)
  {
    var before := Meanwhile(w, s, i.before);
    MeanwhileLeaves(w, s, i.before, e, r.a);
    match ending
    case Exhausted =>
      FinishesAs(w, before, e, r.a, w.tail, Clean(r.a, w.tail));
      assert [] + w.tail == w.tail;
    case Raised(more) =>
      FinishesAs(w, before, e, r.a, more, false);
      assert [] + more == more;
    case Broken(m, more) =>
      BoundaryIsSteps(w, s, r, e, m, i);
      StillAhead(Arriving(w, r), e, m);
      FinishesAs(w, ToBoundary(w, s, r, e, m, i), e, AtBoundary(Arriving(w, r), e, m).a, more,
                 false);
    case Cancelled =>
      ArrivesAs(w, before, e, r);
  }

  /** The premises of a fetch: its turns and its end fit the work. */
  predicate Fits(w: Work, r: Running, ms: seq<Moment>, others: seq<Interlude>, ending: Ending) {
    && !r.a.arrived && r.a.pos + |ms| <= |w.units| && |others| == |ms| && CanEnd(w, r.a.pos + |ms|, ending)
  }

  function AfterFetch(w: Work, s: System, r: Running, e: nat, ms: seq<Moment>,
                      others: seq<Interlude>, ending: Ending, last: Interlude): System
    requires Fits(w, r, ms, others, ending)
  {
    AfterEnd(w, AfterTurns(w, s, r, e, ms, others), Turns(w, r, e, ms), e, ending,
             last)
  }

  /** Every answer of the whole fetch was given to the batch it offered. */
  predicate HonestFetch(w: Work, s: System, r: Running, e: nat, ms: seq<Moment>,
                        others: seq<Interlude>, ending: Ending, last: Interlude)
    requires Fits(w, r, ms, others, ending)
  {
    && AllHonest(w, s, r, e, ms, others)
    && HonestEnd(w, AfterTurns(w, s, r, e, ms, others), Turns(w, r, e, ms), e, ending,
                 last)
  }

  /** A lease just granted is where a fetch begins. */
  lemma LeaseBegins(w: Work, s: System, e: nat, suppressed: set<Candidate>, discard: bool, ignores: bool,
                    leasedAt: real)
    requires Reached(w, s) && Enabled(w, s, StepLease(e, suppressed, discard, ignores))
    ensures var leased := Next(w, s, StepLease(e, suppressed, discard, ignores));
            var t := leased.task;
            && Reached(w, leased)
            && RunsAs(leased, e, Begun(t.attempts, suppressed, t.checkpoint, t.sequence, ignores, leasedAt).a)
  {
    TryReaches(w, s, StepLease(e, suppressed, discard, ignores));
  }

  /**
   A fetch from its lease to its end is a stretch of a run. What the runner hands back is on the wire
   of a reachable state, and describes exactly the units and records it is about.
   */
  lemma FetchIsARun(w: Work, s: System, r: Running, e: nat, ms: seq<Moment>,
                    others: seq<Interlude>, ending: Ending, last: Interlude)
    requires WellFormed(w) && Reached(w, s) && RunsAs(s, e, r.a) && Fits(w, r, ms, others, ending)
    requires HonestFetch(w, s, r, e, ms, others, ending, last)
    ensures var after := AfterFetch(w, s, r, e, ms, others, ending, last);
            var results := Submission(w, Turns(w, r, e, ms), e, ending);
            && Reached(w, after) && e !in after.attempts
            && (results.Some? ==> results.value in after.finals && ResultsOk(w, results.value))
  {
    var before, run := AfterTurns(w, s, r, e, ms, others), Turns(w, r, e, ms);
    TurnsAreSteps(w, s, r, e, ms, others);
    EndReaches(w, before, run, e, ending, last);
    EndIsSteps(w, before, run, e, ending, last);
    ReachedIsOk(w, AfterEnd(w, before, run, e, ending, last));
  }
}
