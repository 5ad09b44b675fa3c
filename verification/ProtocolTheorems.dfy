/**
 What every run of the batch protocol guarantees: exactly-once accounting, the engine's
 ledger never passing the store, and a verdict that fails closed.
 */
module ProtocolTheorems {
  import opened Basics
  import opened Coverage
  import opened BatchProtocol
  import opened ProtocolInvariant

  // ----- which positions a run drops -----

  /** Whether a step makes the API accept a message. */
  predicate Accepts(t: Task, step: Step) {
    || (step.StepDeliver? && ValidProgress(step.message) && Advances(t, step.message))
    || (step.StepConclude? && Concludes(t, step.results))
  }

  /**
   The leased position that the holder set aside to start from the top and that no accepted
   message has yet taken the place of.
   */
  function SetAside(w: Work, steps: seq<Step>): seq<nat>
    requires Legal(w, steps)
  {
    if steps == [] then []
    else
      var before, last := steps[..|steps| - 1], steps[|steps| - 1];
      var t := Run(w, before).task;
      if last.StepLease? then if last.ignores then [Lease(t, last.engine, last.discard).checkpoint] else []
      else if Accepts(t, last) then []
      else SetAside(w, before)
  }

  /** The positions a run gave up: by the API at a lease, and by an engine once a message of it is accepted. */
  function Drops(w: Work, steps: seq<Step>): seq<nat>
    requires Legal(w, steps)
  {
    if steps == [] then []
    else
      var before, last := steps[..|steps| - 1], steps[|steps| - 1];
      var t := Run(w, before).task;
      if last.StepLease? && last.discard then Drops(w, before) + [t.checkpoint]
      else if Accepts(t, last) then Drops(w, before) + SetAside(w, before)
      else Drops(w, before)
  }

  /** What the holder's attempt and messages say about the position set aside. */
  ghost predicate Aside(s: System, p: seq<nat>) {
    && (forall e :: e in s.attempts && Holds(s.task, e) ==> AttemptAside(s.task, s.attempts[e], p))
    && (forall m :: m in s.wire && Holds(s.task, m.engine) && m.sequence == s.task.sequence + 1 ==>
        m.origin.abandoned == p)
    && (forall r :: r in s.finals && Holds(s.task, r.engine) && r.sequence == s.task.sequence ==>
        r.origin.abandoned == p)
  }

  predicate AttemptAside(t: Task, a: Attempt, p: seq<nat>) {
    if a.ledger.sequence == t.sequence then a.abandoned == p else p == []
  }

  /** An attempt that holds the lease has not yet heard of the batch just accepted. */
  lemma AcceptedAttempts(w: Work, s: System, step: Step)
    requires Inv(w, s) && Enabled(w, s, step) && Accepts(s.task, step)
    ensures var t' := Next(w, s, step).task;
            forall e :: e in s.attempts && Holds(t', e) ==> AttemptAside(t', s.attempts[e], [])
  {
    var t' := Next(w, s, step).task;
    forall e | e in s.attempts && Holds(t', e) ensures AttemptAside(t', s.attempts[e], []) {
      assert AttemptOk(w, s.task, s.wire, e, s.attempts[e]);
    }
  }

  /** Accepting a message advances the counter, or ends the task. */
  lemma AcceptedIsNext(w: Work, s: System, step: Step)
    requires Inv(w, s) && Enabled(w, s, step) && Accepts(s.task, step)
    ensures var s' := Next(w, s, step);
            && s'.wire <= s.wire && s'.finals <= s.finals && s'.attempts == s.attempts
            && forall e :: Holds(s'.task, e) ==> Holds(s.task, e) && s'.task.sequence == s.task.sequence + 1
  {
  }

  lemma AsideAfterAccept(w: Work, s: System, step: Step)
    requires Inv(w, s) && Enabled(w, s, step) && Accepts(s.task, step)
    ensures Aside(Next(w, s, step), [])
  {
    AcceptedAttempts(w, s, step);
    AcceptedIsNext(w, s, step);
    NothingAside(w, s, Next(w, s, step));
  }

  lemma NothingAside(w: Work, s: System, s': System)
    requires WireOk(w, s.task, s.wire) && FinalsOk(w, s.task, s.finals) && s'.wire <= s.wire && s'.finals <= s.finals
    requires forall e :: Holds(s'.task, e) ==> Holds(s.task, e) && s'.task.sequence == s.task.sequence + 1
    requires forall e :: e in s'.attempts && Holds(s'.task, e) ==> AttemptAside(s'.task, s'.attempts[e], [])
    ensures Aside(s', [])
  {
    forall m | m in s'.wire && Holds(s'.task, m.engine) ensures m.sequence != s'.task.sequence + 1 {
      assert ProgressFits(s.task, m);
    }
    forall r | r in s'.finals && Holds(s'.task, r.engine) ensures r.sequence != s'.task.sequence {
      assert ResultsFit(s.task, r);
    }
  }

  lemma AsideAttempt(s: System, e: nat, a: Attempt, p: seq<nat>)
    requires Aside(s, p) && (Holds(s.task, e) ==> AttemptAside(s.task, a, p))
    ensures Aside(s.(attempts := s.attempts[e := a]), p)
  {
  }

  lemma AsideMessage(s: System, m: Progress, p: seq<nat>)
    requires Aside(s, p)
    requires Holds(s.task, m.engine) && m.sequence == s.task.sequence + 1 ==> m.origin.abandoned == p
    ensures Aside(s.(wire := s.wire + {m}), p)
  {
  }

  lemma AsideFinal(s: System, e: nat, r: Results, p: seq<nat>)
    requires Aside(s, p)
    requires Holds(s.task, r.engine) && r.sequence == s.task.sequence ==> r.origin.abandoned == p
    ensures Aside(s.(attempts := Without(s.attempts, e), finals := s.finals + {r}), p)
  {
  }

  lemma AsideCrash(s: System, e: nat, p: seq<nat>)
    requires Aside(s, p)
    ensures Aside(s.(attempts := Without(s.attempts, e)), p)
  {
  }

  /** A settled batch was accepted, so nothing is set aside any more, or was refused. */
  lemma AsideSettled(w: Work, t: Task, wire: set<Progress>, e: nat, a: Attempt, n: nat, p: seq<nat>)
    requires AttemptOk(w, t, wire, e, a) && a.ledger.inFlight.Some? && Holds(t, e) && AttemptAside(t, a, p)
    requires n < a.ledger.inFlight.value.message.sequence || n == a.ledger.inFlight.value.message.sequence <= t.sequence
    ensures AttemptAside(t, Acknowledged(a, n), p)
  {
    assert BatchOk(w, e, a, a.ledger.inFlight.value);
  }

  lemma AsideAfterReply(w: Work, s: System, e: nat, n: nat, p: seq<nat>)
    requires Inv(w, s) && Enabled(w, s, StepAcknowledge(e, n)) && Aside(s, p)
    ensures Aside(Next(w, s, StepAcknowledge(e, n)), p)
  {
    var a := s.attempts[e];
    assert AttemptOk(w, s.task, s.wire, e, a);
    assert BatchOk(w, e, a, a.ledger.inFlight.value);
    if Holds(s.task, e) {
      assert ReplyOk(s.task, s.attempts, a.ledger.inFlight.value.message, n);
      AsideSettled(w, s.task, s.wire, e, a, n, p);
    }
    AsideAttempt(s, e, Acknowledged(a, n), p);
  }

  lemma AsideAfterFlush(w: Work, s: System, e: nat, p: seq<nat>)
    requires Inv(w, s) && Enabled(w, s, StepFlush(e)) && Aside(s, p)
    ensures Aside(Next(w, s, StepFlush(e)), p)
  {
    var a := Flushed(s.attempts[e], e);
    assert AttemptOk(w, s.task, s.wire, e, s.attempts[e]);
    AsideAttempt(s, e, a, p);
    AsideMessage(s.(attempts := s.attempts[e := a]), a.ledger.inFlight.value.message, p);
  }

  lemma AsideAfterRedelivery(w: Work, s: System, e: nat, p: seq<nat>)
    requires Inv(w, s) && Enabled(w, s, StepRedeliver(e)) && Aside(s, p)
    ensures Aside(Next(w, s, StepRedeliver(e)), p)
  {
    var a := s.attempts[e];
    assert AttemptOk(w, s.task, s.wire, e, a);
    assert BatchOk(w, e, a, a.ledger.inFlight.value);
    AsideMessage(s, a.ledger.inFlight.value.message, p);
  }

  lemma AsideAfterFinish(w: Work, s: System, e: nat, more: seq<Op>, completed: bool, p: seq<nat>)
    requires Inv(w, s) && Enabled(w, s, StepFinish(e, more, completed)) && Aside(s, p)
    ensures Aside(Next(w, s, StepFinish(e, more, completed)), p)
  {
    var a := s.attempts[e];
    var arrived := if a.arrived && a.pos < |w.units| then w.units[a.pos].ops else [];
    AsideFinal(s, e, Terminal(a, e, more, completed, arrived + more), p);
  }

  lemma AsideAfterFetch(w: Work, s: System, step: Step, p: seq<nat>)
    requires Inv(w, s) && Enabled(w, s, step) && Aside(s, p) && IsFetchStep(step)
    ensures Aside(Next(w, s, step), p)
  {
    match step
    case StepArrive(e) => AsideAttempt(s, e, Arrived(w, s.attempts[e]), p);
    case StepProcess(e) => AsideAttempt(s, e, Processed(w, s.attempts[e]), p);
    case StepCrash(e) => AsideCrash(s, e, p);
  }

  lemma AsideAfterMessage(w: Work, s: System, step: Step, p: seq<nat>)
    requires Inv(w, s) && Enabled(w, s, step) && Aside(s, p) && IsBatchStep(step)
    ensures Aside(Next(w, s, step), p)
  {
    match step
    case StepFlush(e) => AsideAfterFlush(w, s, e, p);
    case StepRedeliver(e) => AsideAfterRedelivery(w, s, e, p);
    case StepAcknowledge(e, n) => AsideAfterReply(w, s, e, n, p);
    case StepFinish(e, more, completed) => AsideAfterFinish(w, s, e, more, completed, p);
  }

  lemma AsideAfterOther(w: Work, s: System, step: Step, p: seq<nat>)
    requires Enabled(w, s, step) && Aside(s, p)
    requires !IsFetchStep(step) && !IsBatchStep(step) && !step.StepLease? && !Accepts(s.task, step)
    ensures Aside(Next(w, s, step), p)
  {
  }

  lemma AsideAfterLease(w: Work, s: System, step: Step)
    requires Inv(w, s) && Enabled(w, s, step) && step.StepLease?
    ensures Aside(Next(w, s, step),
                  if step.ignores then [Lease(s.task, step.engine, step.discard).checkpoint] else [])
  {
  }

  lemma {:induction false} AsideKeeps(w: Work, steps: seq<Step>)
    requires WellFormed(w) && Legal(w, steps)
    ensures Aside(Run(w, steps), SetAside(w, steps))
  {
    if steps != [] {
      var before, last := steps[..|steps| - 1], steps[|steps| - 1];
      var s := Run(w, before);
      AsideKeeps(w, before);
      RunKeeps(w, before);
      if last.StepLease? {
        AsideAfterLease(w, s, last);
      } else if Accepts(s.task, last) {
        AsideAfterAccept(w, s, last);
      } else if IsFetchStep(last) {
        AsideAfterFetch(w, s, last, SetAside(w, before));
      } else if IsBatchStep(last) {
        AsideAfterMessage(w, s, last, SetAside(w, before));
      } else {
        AsideAfterOther(w, s, last, SetAside(w, before));
      }
    }
  }

  lemma AcceptedDiscards(w: Work, s: System, step: Step, p: seq<nat>)
    requires RowOk(s.task) && Enabled(w, s, step) && Aside(s, p) && Accepts(s.task, step)
    ensures Next(w, s, step).task.discarded == s.task.discarded + p
  {
    if step.StepDeliver? {
      assert step.message in s.wire && step.message.origin.abandoned == p;
    } else {
      assert step.results in s.finals && step.results.origin.abandoned == p;
    }
  }

  lemma OtherwiseKept(w: Work, s: System, step: Step)
    requires Enabled(w, s, step) && !Accepts(s.task, step)
    ensures Next(w, s, step).task.discarded ==
            if step.StepLease? && step.discard then s.task.discarded + [s.task.checkpoint] else s.task.discarded
  {
  }

  lemma StepDiscards(w: Work, s: System, step: Step, p: seq<nat>)
    requires Inv(w, s) && Enabled(w, s, step) && Aside(s, p)
    ensures Next(w, s, step).task.discarded ==
            if step.StepLease? && step.discard then s.task.discarded + [s.task.checkpoint]
            else if Accepts(s.task, step) then s.task.discarded + p
            else s.task.discarded
  {
    if Accepts(s.task, step) {
      AcceptedDiscards(w, s, step, p);
    } else {
      OtherwiseKept(w, s, step);
    }
  }

  /** What the row has on record as dropped is exactly what the run dropped. */
  lemma {:induction false} DiscardedAreDrops(w: Work, steps: seq<Step>)
    requires WellFormed(w) && Legal(w, steps)
    ensures Run(w, steps).task.discarded == Drops(w, steps)
  {
    if steps != [] {
      var before, last := steps[..|steps| - 1], steps[|steps| - 1];
      DiscardedAreDrops(w, before);
      RunKeeps(w, before);
      AsideKeeps(w, before);
      StepDiscards(w, Run(w, before), last, SetAside(w, before));
    }
  }

  lemma SetAsideIsPosition(w: Work, s: System, step: Step, p: seq<nat>)
    requires Inv(w, s) && Enabled(w, s, step) && Aside(s, p) && Accepts(s.task, step)
    ensures p == [] || p == [s.task.checkpoint]
  {
    if step.StepDeliver? {
      assert ProgressFits(s.task, step.message);
    } else {
      assert ResultsFit(s.task, step.results);
    }
  }

  lemma {:induction false} DropsAreWithin(w: Work, steps: seq<Step>, i: nat)
    requires WellFormed(w) && Legal(w, steps) && i < |Drops(w, steps)|
    ensures Drops(w, steps)[i] <= |w.units|
  {
    var before, last := steps[..|steps| - 1], steps[|steps| - 1];
    RunKeeps(w, before);
    AsideKeeps(w, before);
    if i < |Drops(w, before)| {
      DropsAreWithin(w, before, i);
    } else if !last.StepLease? {
      SetAsideIsPosition(w, Run(w, before), last, SetAside(w, before));
    }
  }

  /**
   In every reachable state the accepted messages cover the units before the stored
   position, in order, after one more copy of the prefix of every position the run dropped;
   and tallies and counter are those of exactly that work.
   */
  lemma AcceptedWork(w: Work, steps: seq<Step>)
    requires WellFormed(w) && Legal(w, steps)
    ensures var t := Run(w, steps).task;
            && Through(t) <= |w.units|
            && AcceptedUnits(w, t) == Dropped(w, Drops(w, steps)) + w.units[..Through(t)]
            && t.tally == AcceptedTally(w, t)
            && t.sequence == |t.history|
  {
    RunKeeps(w, steps);
    DiscardedAreDrops(w, steps);
  }

  // ----- exactly once, and exactly when -----

  /** Whether the run ever gave up a position past the start. */
  predicate Restarts(w: Work, steps: seq<Step>)
    requires Legal(w, steps)
  {
    exists i :: 0 <= i < |Drops(w, steps)| && Drops(w, steps)[i] > 0
  }

  lemma {:induction false} NothingDroppedIff(w: Work, positions: seq<nat>)
    requires forall i :: 0 <= i < |positions| ==> positions[i] <= |w.units|
    ensures Dropped(w, positions) == [] <==> forall i :: 0 <= i < |positions| ==> positions[i] == 0
  {
    if positions != [] {
      var before, last := positions[..|positions| - 1], positions[|positions| - 1];
      NothingDroppedIff(w, before);
      assert |Prefix(w, last)| == last;
      assert forall i :: 0 <= i < |before| ==> before[i] == positions[i];
      assert |Dropped(w, positions)| == |Dropped(w, before)| + last;
    }
  }

  lemma DroppedIffRestarts(w: Work, steps: seq<Step>)
    requires WellFormed(w) && Legal(w, steps)
    ensures Dropped(w, Drops(w, steps)) == [] <==> !Restarts(w, steps)
  {
    forall i | 0 <= i < |Drops(w, steps)| ensures Drops(w, steps)[i] <= |w.units| {
      DropsAreWithin(w, steps, i);
    }
    NothingDroppedIff(w, Drops(w, steps));
  }

  /**
   The accepted units are precisely the prefix the stored position names if and only if the run
   gave up no position past the start: no lease dropped one, and no engine that could not read
   the one it was leased had a message accepted. Giving one up keeps the accumulated coverage and
   tallies, so its units stay counted, and count again as they are read again.
   */
  lemma ExactlyOnceIff(w: Work, steps: seq<Step>)
    requires WellFormed(w) && Legal(w, steps)
    ensures var t := Run(w, steps).task;
            && Through(t) <= |w.units|
            && (AcceptedUnits(w, t) == w.units[..Through(t)] <==> !Restarts(w, steps))
  {
    AcceptedWork(w, steps);
    DroppedIffRestarts(w, steps);
    var t := Run(w, steps).task;
    assert |AcceptedUnits(w, t)| == |Dropped(w, Drops(w, steps))| + Through(t);
  }

  /** Every lease resumes where the row stands, or there is nothing to resume from. */
  predicate LeasesResume(w: Work, steps: seq<Step>)
    requires Legal(w, steps)
  {
    steps == [] ||
    (var before, last := steps[..|steps| - 1], steps[|steps| - 1];
     && LeasesResume(w, before)
     && (last.StepLease? && (last.discard || last.ignores) ==> Run(w, before).task.checkpoint == 0))
  }

  /** Only leases restart: when all of them resume, each unit is counted once. */
  lemma {:induction false} ResumingNeverRestarts(w: Work, steps: seq<Step>)
    requires Legal(w, steps) && LeasesResume(w, steps)
    ensures SetAside(w, steps) == [] || SetAside(w, steps) == [0]
    ensures !Restarts(w, steps)
  {
    if steps != [] {
      var before := steps[..|steps| - 1];
      ResumingNeverRestarts(w, before);
      forall i | 0 <= i < |Drops(w, steps)| ensures Drops(w, steps)[i] == 0 {
        assert i < |Drops(w, before)| ==> Drops(w, steps)[i] == Drops(w, before)[i];
      }
    }
  }

  // ----- what becomes of the stored report -----

  /** Whether a lease failed after its claim on a task with accepted operations. */
  predicate Overwrites(w: Work, steps: seq<Step>)
    requires Legal(w, steps)
  {
    steps != [] &&
    var before, last := steps[..|steps| - 1], steps[|steps| - 1];
    Overwrites(w, before) || (last.StepLeaseFails? && AcceptedOps(w, Run(w, before).task) != [])
  }

  lemma ReplacedIsFinal(w: Work, s: System, step: Step)
    requires RowOk(s.task) && Enabled(w, s, step) && s.task.replaced
    ensures Next(w, s, step).task == s.task
  {
  }

  lemma OnlyFailingReplaces(w: Work, s: System, step: Step)
    requires Enabled(w, s, step) && !s.task.replaced
    ensures Next(w, s, step).task.replaced <==> step.StepLeaseFails?
  {
  }

  lemma FailingKeepsAccepted(w: Work, t: Task, e: nat, reason: Reason)
    ensures AcceptedOps(w, LeaseFails(t, e, reason)) == AcceptedOps(w, t)
  {
  }

  lemma {:induction false} ReplacedIffOverwrites(w: Work, steps: seq<Step>)
    requires WellFormed(w) && Legal(w, steps)
    ensures var t := Run(w, steps).task;
            Overwrites(w, steps) <==> t.replaced && AcceptedOps(w, t) != []
  {
    if steps != [] {
      var before, last := steps[..|steps| - 1], steps[|steps| - 1];
      ReplacedIffOverwrites(w, before);
      RunKeeps(w, before);
      if Run(w, before).task.replaced {
        ReplacedIsFinal(w, Run(w, before), last);
      } else {
        OnlyFailingReplaces(w, Run(w, before), last);
        if last.StepLeaseFails? {
          FailingKeepsAccepted(w, Run(w, before).task, last.engine, last.reason);
        }
      }
    }
  }

  lemma {:induction false} SomethingCounts(ops: seq<Op>)
    ensures Sum(Observed, ops) >= 0 && Sum(GapCount, ops) >= 0
    ensures ops != [] ==> Sum(Observed, ops) + Sum(GapCount, ops) > 0
  {
    if ops != [] {
      SomethingCounts(ops[..|ops| - 1]);
    }
  }

  /** A report tells whether anything came before a last gap. */
  lemma PayloadTells(ops: seq<Op>, gap: seq<Op>)
    ensures Payload(ops + gap) == Payload(gap) <==> ops == []
  {
    SomethingCounts(ops);
    SumConcat(Observed, ops, gap);
    SumConcat(GapCount, ops, gap);
    if ops == [] {
      assert ops + gap == gap;
    }
  }

  /**
   The stored report is that of everything accepted, and of the gap the API itself recorded if it
   did, if and only if no lease failed after its claim on a task with accepted operations:
   such a failure writes a report of nothing read over what was accumulated.
   */
  lemma CoverageSurvivesIff(w: Work, steps: seq<Step>)
    requires WellFormed(w) && Legal(w, steps)
    ensures var t := Run(w, steps).task;
            if t.history == [] && t.final.None? && t.closing == [] then t.coverage == None
            else t.coverage == Some(Payload(AcceptedOps(w, t) + t.closing)) <==> !Overwrites(w, steps)
  {
    RunKeeps(w, steps);
    ReplacedIffOverwrites(w, steps);
    var t := Run(w, steps).task;
    if t.replaced {
      PayloadTells(AcceptedOps(w, t), t.closing);
    } else if t.closing == [] {
      assert AcceptedOps(w, t) + t.closing == AcceptedOps(w, t);
    }
  }

  /** While a task is live its accumulated report always passes the validators, so none of it is dropped. */
  lemma StoredReportValidates(w: Work, steps: seq<Step>)
    requires WellFormed(w) && Legal(w, steps) && Live(Run(w, steps).task)
    ensures var t := Run(w, steps).task;
            && Stored(t) == t.coverage
            && (t.history != [] ==> Stored(t) == Some(Payload(OpsOf(UnitsIn(w, t.history)))))
  {
    RunKeeps(w, steps);
    var t := Run(w, steps).task;
    if t.history != [] {
      StoredIsWhole(w, t);
    }
  }

  // ----- completion -----

  lemma {:induction false} AllZero(weight: Op -> int, ops: seq<Op>, i: nat)
    requires i < |ops| && Sum(weight, ops) == 0
    requires forall j :: 0 <= j < |ops| ==> weight(ops[j]) >= 0
    ensures weight(ops[i]) == 0
  {
    var before, last := ops[..|ops| - 1], ops[|ops| - 1];
    assert Sum(weight, before) >= 0 by {
      SumMonotone(weight, before, 0);
      assert before[..0] == [];
    }
    if i < |before| {
      AllZero(weight, before, i);
    }
  }

  lemma NothingUninspected(ops: seq<Op>)
    requires Sum(FailedObjects, ops) == 0 && Sum(ScopeGaps, ops) == 0
    ensures forall i :: 0 <= i < |ops| ==> ops[i].Scan? || ops[i].Skip?
  {
    forall i | 0 <= i < |ops| ensures ops[i].Scan? || ops[i].Skip? {
      AllZero(FailedObjects, ops, i);
      AllZero(ScopeGaps, ops, i);
    }
  }

  /**
   Fail closed over the whole task: a task recorded as completed had every unit of the work
   accepted, and no accepted message of any of its attempts reported anything but complete scans
   and policy skips.
   */
  lemma CompletedMeansInspected(w: Work, steps: seq<Step>)
    requires WellFormed(w) && Legal(w, steps) && Run(w, steps).task.status.CompletedTask?
    ensures var t := Run(w, steps).task;
            && AcceptedUnits(w, t) == Dropped(w, Drops(w, steps)) + w.units
            && t.coverage == Some(Payload(OpsOf(AcceptedUnits(w, t)) + w.tail))
            && forall i :: 0 <= i < |AcceptedOps(w, t)| ==>
                 AcceptedOps(w, t)[i].Scan? || AcceptedOps(w, t)[i].Skip?
  {
    RunKeeps(w, steps);
    DiscardedAreDrops(w, steps);
    var t := Run(w, steps).task;
    assert w.units[..|w.units|] == w.units;
    NothingUninspected(AcceptedOps(w, t));
  }

  /** Without a restart a completed task's stored report is that of one uninterrupted fetch. */
  lemma CompletedExactlyOnce(w: Work, steps: seq<Step>)
    requires WellFormed(w) && Legal(w, steps) && Run(w, steps).task.status.CompletedTask?
    requires !Restarts(w, steps)
    ensures var t := Run(w, steps).task;
            && AcceptedUnits(w, t) == w.units && AcceptedOps(w, t) == OpsOf(w.units) + w.tail
            && t.coverage == Some(Payload(OpsOf(w.units) + w.tail))
            && t.tally == StretchTally(w.units, w.tail)
  {
    RunKeeps(w, steps);
    CompletedMeansInspected(w, steps);
    DroppedIffRestarts(w, steps);
    assert [] + w.units == w.units;
  }

  // ----- findings -----

  lemma {:induction false} FindingsConserved(w: Work, h: seq<Origin>)
    ensures |FindingsIn(w, h)| + PrefilteredIn(w, h) == |CandidatesOf(UnitsIn(w, h))|
    ensures PrefilteredIn(w, h) >= 0
  {
    if h != [] {
      var before, last := h[..|h| - 1], h[|h| - 1];
      FindingsConserved(w, before);
      UnitsInLast(w, h);
      CandidatesConcat(UnitsIn(w, before), UnitsOf(w, last));
      KeptIsSubset(CandidatesOf(UnitsOf(w, last)), last.suppressed);
    }
  }

  lemma {:induction false} KeptAll(cs: seq<Candidate>)
    ensures Kept(cs, {}) == cs
  {
    if cs != [] {
      KeptAll(cs[..|cs| - 1]);
    }
  }

  lemma {:induction false} FindingsAll(w: Work, h: seq<Origin>)
    requires forall i :: 0 <= i < |h| ==> h[i].suppressed == {}
    ensures FindingsIn(w, h) == CandidatesOf(UnitsIn(w, h))
  {
    if h != [] {
      var before, last := h[..|h| - 1], h[|h| - 1];
      FindingsAll(w, before);
      UnitsInLast(w, h);
      CandidatesConcat(UnitsIn(w, before), UnitsOf(w, last));
      KeptAll(CandidatesOf(UnitsOf(w, last)));
    }
  }

  /**
   Every candidate of the accepted units was either ingested or counted as pre-filtered,
   once; with no suppressions in any lease, the ingested findings are the candidates of the
   accepted units, in order, none missing and none repeated.
   */
  lemma FindingsExactlyOnce(w: Work, steps: seq<Step>)
    requires WellFormed(w) && Legal(w, steps)
    ensures var t := Run(w, steps).task;
            && |t.findings| + t.prefiltered == |CandidatesOf(AcceptedUnits(w, t))|
            && ((forall i :: 0 <= i < |Accepted(t)| ==> Accepted(t)[i].suppressed == {}) ==>
                  t.findings == CandidatesOf(AcceptedUnits(w, t)) && t.prefiltered == 0)
  {
    RunKeeps(w, steps);
    var t := Run(w, steps).task;
    FindingsConserved(w, Accepted(t));
    if forall i :: 0 <= i < |Accepted(t)| ==> Accepted(t)[i].suppressed == {} {
      FindingsAll(w, Accepted(t));
    }
  }

  // ----- the ledger -----

  /**
   The ledger of every running attempt, the current holder's and a superseded one's alike,
   states exactly the batches accepted from that attempt up to its own counter. For the
   holder the store is at most one batch ahead, and that one is the batch in flight.
   */
  lemma LedgerNeverPassesStore(w: Work, steps: seq<Step>, e: nat)
    requires WellFormed(w) && Legal(w, steps) && e in Run(w, steps).attempts
    ensures var t, a := Run(w, steps).task, Run(w, steps).attempts[e];
            var l := a.ledger;
            && a.leased <= l.sequence <= t.sequence == |t.history|
            && var sent := UnitsIn(w, t.history[a.leased..l.sequence]);
            && l.sentCandidates == |CandidatesOf(sent)|
            && l.sentCoverage == Payload(OpsOf(sent))
            && l.sentTally == UnitTally(sent)
            && (t.engine == Some(e) && t.resultKey.None? ==>
                  || t.sequence == l.sequence
                  || (&& t.sequence == l.sequence + 1 && l.inFlight.Some?
                      && t.history[l.sequence] == l.inFlight.value.message.origin))
  {
    RunKeeps(w, steps);
    var s := Run(w, steps);
    assert AttemptOk(w, s.task, s.wire, e, s.attempts[e]);
  }

  lemma DeltaFillsTheGap(w: Work, start: nat, from: nat, upto: nat)
    requires InOrder(w, start, from, upto)
    ensures var sent, whole := OpsBetween(w, start, from), OpsBetween(w, start, upto);
            Merge(Some(Payload(sent)), Delta(Payload(whole), Payload(sent))) == Payload(whole)
  {
    var sent, more := OpsBetween(w, start, from), OpsBetween(w, from, upto);
    OpsSplit(w, start, from, upto);
    var nothing := sent[..0];
    assert nothing + sent == sent;
    MergeOfDeltaIsWhole(nothing, sent, more);
  }

  lemma TallyFillsTheGap(w: Work, start: nat, from: nat, upto: nat)
    requires InOrder(w, start, from, upto)
    ensures Plus(UnitTally(w.units[start..from]), UnitTally(w.units[from..upto])) == UnitTally(w.units[start..upto])
  {
    Split(w, start, from, upto);
    UnitTallyConcat(w.units[start..from], w.units[from..upto]);
  }

  /**
   The batch in flight carries exactly what lies between the ledger and the boundary it was
   composed for, however often it is sent: adding it to what the API is known to hold gives the
   boundary's coverage and tallies.
   */
  lemma BatchFillsTheGap(w: Work, steps: seq<Step>, e: nat)
    requires WellFormed(w) && Legal(w, steps) && e in Run(w, steps).attempts
    requires Run(w, steps).attempts[e].ledger.inFlight.Some?
    ensures var l := Run(w, steps).attempts[e].ledger;
            var m, b := l.inFlight.value.message, l.inFlight.value.boundary;
            && m.sequence == l.sequence + 1
            && Merge(Some(l.sentCoverage), m.coverage) == b.coverage
            && Plus(l.sentTally, m.tally) == b.tally
            && l.sentCandidates + |m.findings| + m.prefiltered == b.covered
  {
    RunKeeps(w, steps);
    var s := Run(w, steps);
    var a := s.attempts[e];
    assert AttemptOk(w, s.task, s.wire, e, a);
    var o := a.ledger.inFlight.value.message.origin;
    assert BatchOk(w, e, a, a.ledger.inFlight.value);
    DeltaFillsTheGap(w, o.start, o.from, o.upto);
    TallyFillsTheGap(w, o.start, o.from, o.upto);
    Split(w, o.start, o.from, o.upto);
    CandidatesConcat(w.units[o.start..o.from], w.units[o.from..o.upto]);
  }

  // ----- no batch is ever malformed -----

  lemma {:induction false} TalliesNonNegative(us: seq<Unit>)
    ensures NonNegative(UnitTally(us))
  {
    NonNegativeSum(YieldedUnits, OpsOf(us));
    NonNegativeSum(SkippedObjects, OpsOf(us));
    NonNegativeSum(FailedUnits, OpsOf(us));
    NonNegativeSum(TruncatedIn, us);
    NonNegativeSum(DroppedIn, us);
  }

  lemma {:induction false} NonNegativeSum<T>(weight: T -> int, s: seq<T>)
    requires forall x :: x in s ==> weight(x) >= 0
    ensures Sum(weight, s) >= 0
  {
    if s != [] {
      NonNegativeSum(weight, s[..|s| - 1]);
    }
  }

  lemma DeltaOfBatchAccepted(w: Work, o: Origin)
    requires WellFormed(w) && InOrder(w, o.start, o.from, o.upto)
    ensures Valid(Delta(Payload(OpsBetween(w, o.start, o.upto)), Payload(OpsBetween(w, o.start, o.from))))
  {
    OpsSplit(w, o.start, o.from, o.upto);
    WholeOps(w.units[o.from..o.upto]);
    DeltaOfWholeUnitsAccepted(OpsBetween(w, o.start, o.from), OpsBetween(w, o.from, o.upto));
  }

  lemma BatchIsValid(w: Work, m: Progress)
    requires WellFormed(w) && ProgressOk(w, m)
    ensures ValidProgress(m) <==> m.sequence <= MAX_BATCH_SEQUENCE
  {
    var o := m.origin;
    KeptIsSubset(CandidatesOf(UnitsOf(w, o)), o.suppressed);
    TalliesNonNegative(UnitsOf(w, o));
    DeltaOfBatchAccepted(w, o);
  }

  /** Every batch any engine puts on the wire passes every check of its body but the counter's cap. */
  lemma BatchesAreWellFormed(w: Work, steps: seq<Step>, m: Progress)
    requires WellFormed(w) && Legal(w, steps) && m in Run(w, steps).wire
    ensures ValidProgress(m) <==> m.sequence <= MAX_BATCH_SEQUENCE
  {
    RunKeeps(w, steps);
    assert ProgressOk(w, m);
    BatchIsValid(w, m);
  }

  // ----- why an engine must be quiet before it leases again -----

  /**
   The API fences by engine, not by attempt. When two different batches of one engine carry
   the same number, the second is answered as a replay at its own number although nothing
   of it was stored, and a ledger that settles on that answer counts it as delivered.
   */
  lemma ReplayAcknowledgesAnotherBatch(t: Task, first: Progress, second: Progress, l: Ledger)
    requires ValidProgress(first) && ValidProgress(second) && Advances(t, first)
    requires second.engine == first.engine && second.sequence == first.sequence
    requires l.inFlight.Some? && l.inFlight.value.message == second
    ensures SubmitProgress(SubmitProgress(t, first).0, second) ==
            (SubmitProgress(t, first).0, Counter(second.sequence))
    ensures SubmitProgress(t, first).0.history == t.history + [first.origin]
    ensures Settle(l, second.sequence).sentCandidates == l.inFlight.value.boundary.covered
    ensures Settle(l, second.sequence).inFlight == None
  {
  }
}
