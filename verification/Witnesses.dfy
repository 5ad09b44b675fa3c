/**
 Inputs at which a promise fails: for every exact condition stated elsewhere, a run or a value
 that shows the condition is not idle.
 */
module Witnesses {
  import opened Basics
  import opened Coverage
  import opened BatchProtocol
  import opened ProtocolInvariant
  import opened ProtocolTheorems

  // ----- runs of the batch protocol -----

  /** No lease of the run makes the API drop a stored position. */
  predicate NoDiscards(steps: seq<Step>) {
    steps == [] ||
    (NoDiscards(steps[..|steps| - 1]) && !(steps[|steps| - 1].StepLease? && steps[|steps| - 1].discard))
  }

  /** A step that neither leases nor makes the API accept anything drops nothing and sets nothing aside. */
  lemma ExtendQuietly(w: Work, steps: seq<Step>, step: Step)
    requires Legal(w, steps) && Enabled(w, Run(w, steps), step)
    requires !step.StepLease? && !Accepts(Run(w, steps).task, step)
    ensures Legal(w, steps + [step]) && Run(w, steps + [step]) == Next(w, Run(w, steps), step)
    ensures Drops(w, steps + [step]) == Drops(w, steps) && SetAside(w, steps + [step]) == SetAside(w, steps)
    ensures NoDiscards(steps + [step]) == NoDiscards(steps)
  {
    assert (steps + [step])[..|steps|] == steps;
  }

  lemma ExtendLease(w: Work, steps: seq<Step>, e: nat, discard: bool, ignores: bool)
    requires Legal(w, steps) && Run(w, steps).task.status.Queued? && Quiet(Run(w, steps), e)
    ensures var step := StepLease(e, {}, discard, ignores);
            var t, t' := Run(w, steps).task, Lease(Run(w, steps).task, e, discard);
            && Legal(w, steps + [step]) && Run(w, steps + [step]) == Next(w, Run(w, steps), step)
            && Drops(w, steps + [step]) == (if discard then Drops(w, steps) + [t.checkpoint] else Drops(w, steps))
            && SetAside(w, steps + [step]) == (if ignores then [t'.checkpoint] else [])
            && NoDiscards(steps + [step]) == (NoDiscards(steps) && !discard)
  {
    assert (steps + [StepLease(e, {}, discard, ignores)])[..|steps|] == steps;
  }

  /** Whether an attempt is at rest before two more units. */
  predicate Ready(w: Work, s: System, e: nat) {
    && e in s.attempts && !s.attempts[e].arrived && s.attempts[e].ledger.inFlight.None?
    && s.attempts[e].pos + 2 <= |w.units|
  }

  lemma Arrives(w: Work, steps: seq<Step>, e: nat) returns (more: seq<Step>)
    requires Legal(w, steps) && Enabled(w, Run(w, steps), StepArrive(e))
    ensures Legal(w, more) && Drops(w, more) == Drops(w, steps) && SetAside(w, more) == SetAside(w, steps)
    ensures NoDiscards(more) == NoDiscards(steps)
    ensures Run(w, more) == Next(w, Run(w, steps), StepArrive(e))
  {
    ExtendQuietly(w, steps, StepArrive(e));
    more := steps + [StepArrive(e)];
  }

  lemma Processes(w: Work, steps: seq<Step>, e: nat) returns (more: seq<Step>)
    requires Legal(w, steps) && Enabled(w, Run(w, steps), StepProcess(e))
    ensures Legal(w, more) && Drops(w, more) == Drops(w, steps) && SetAside(w, more) == SetAside(w, steps)
    ensures NoDiscards(more) == NoDiscards(steps)
    ensures Run(w, more) == Next(w, Run(w, steps), StepProcess(e))
  {
    ExtendQuietly(w, steps, StepProcess(e));
    more := steps + [StepProcess(e)];
  }

  lemma UpdatedTwice(s: System, e: nat, a: Attempt, b: Attempt)
    ensures s.(attempts := s.attempts[e := a]).(attempts := s.attempts[e := a][e := b]) ==
            s.(attempts := s.attempts[e := b])
  {
    assert s.attempts[e := a][e := b] == s.attempts[e := b];
  }

  lemma Scanned(w: Work, steps: seq<Step>, e: nat) returns (more: seq<Step>)
    requires Legal(w, steps) && Ready(w, Run(w, steps), e)
    ensures Legal(w, more) && Drops(w, more) == Drops(w, steps) && SetAside(w, more) == SetAside(w, steps)
    ensures NoDiscards(more) == NoDiscards(steps)
    ensures var s, a := Run(w, steps), Run(w, steps).attempts[e];
            Run(w, more) == s.(attempts := s.attempts[e := Arrived(w, Processed(w, Arrived(w, a)))])
  {
    var s, a := Run(w, steps), Run(w, steps).attempts[e];
    var one := Arrives(w, steps, e);
    var two := Processes(w, one, e);
    UpdatedTwice(s, e, Arrived(w, a), Processed(w, Arrived(w, a)));
    more := Arrives(w, two, e);
    UpdatedTwice(s, e, Processed(w, Arrived(w, a)), Arrived(w, Processed(w, Arrived(w, a))));
  }

  /** Scanning one unit, seeing the next arrive and flushing puts one batch on the wire. */
  lemma OneBatch(w: Work, steps: seq<Step>, e: nat) returns (more: seq<Step>, m: Progress)
    requires Legal(w, steps) && Ready(w, Run(w, steps), e)
    ensures Legal(w, more) && Drops(w, more) == Drops(w, steps) && SetAside(w, more) == SetAside(w, steps)
    ensures NoDiscards(more) == NoDiscards(steps)
    ensures Run(w, more).task == Run(w, steps).task && m in Run(w, more).wire
    ensures var a := Run(w, steps).attempts[e];
            && m.engine == e && m.sequence == a.ledger.sequence + 1 && m.checkpoint == a.pos + 1
            && m.origin.abandoned == a.abandoned
    ensures Run(w, more).wire == Run(w, steps).wire + {m} && Run(w, more).finals == Run(w, steps).finals
    ensures Run(w, more).attempts.Keys == Run(w, steps).attempts.Keys
  {
    var before := Scanned(w, steps, e);
    ExtendQuietly(w, before, StepFlush(e));
    more := before + [StepFlush(e)];
    m := Flushed(Run(w, before).attempts[e], e).ledger.inFlight.value.message;
  }

  /** The holder's next batch is accepted. */
  lemma Delivers(w: Work, steps: seq<Step>, m: Progress)
    requires WellFormed(w) && Legal(w, steps) && m in Run(w, steps).wire
    requires Advances(Run(w, steps).task, m) && m.sequence <= MAX_BATCH_SEQUENCE
    ensures var step := StepDeliver(m);
            && Legal(w, steps + [step])
            && Run(w, steps + [step]) == Next(w, Run(w, steps), step)
            && Run(w, steps + [step]).task == Advance(Run(w, steps).task, m)
            && Drops(w, steps + [step]) == Drops(w, steps) + SetAside(w, steps)
            && NoDiscards(steps + [step]) == NoDiscards(steps)
  {
    BatchesAreWellFormed(w, steps, m);
    assert (steps + [StepDeliver(m)])[..|steps|] == steps;
  }

  /** Where an attempt leased at this position starts. */
  function StartAt(position: nat, ignores: bool): nat {
    if ignores then 0 else position
  }

  lemma LeaseReady(w: Work, steps: seq<Step>, e: nat, ignores: bool)
    requires Legal(w, steps) && Run(w, steps).task.status.Queued? && Quiet(Run(w, steps), e)
    requires StartAt(Run(w, steps).task.checkpoint, ignores) + 2 <= |w.units|
    ensures var more := steps + [StepLease(e, {}, false, ignores)];
            && Legal(w, more) && Ready(w, Run(w, more), e) && Run(w, more).task == Lease(Run(w, steps).task, e, false)
            && Run(w, more).attempts[e] == NewAttempt(Run(w, more).task.attempts, {}, Run(w, steps).task.checkpoint,
                                                      Run(w, steps).task.sequence, ignores)
            && Run(w, more).wire == Run(w, steps).wire && Run(w, more).finals == Run(w, steps).finals
            && Run(w, more).attempts.Keys == Run(w, steps).attempts.Keys + {e}
  {
    ExtendLease(w, steps, e, false, ignores);
  }

  /** An engine leases the task and has one batch accepted. */
  lemma LeaseAndStore(w: Work, steps: seq<Step>, e: nat, ignores: bool) returns (more: seq<Step>)
    requires WellFormed(w) && Legal(w, steps) && Run(w, steps).task.status.Queued? && Quiet(Run(w, steps), e)
    requires Run(w, steps).task.resultKey.None? && Run(w, steps).task.sequence < MAX_BATCH_SEQUENCE
    requires StartAt(Run(w, steps).task.checkpoint, ignores) + 2 <= |w.units|
    ensures Legal(w, more) && NoDiscards(more) == NoDiscards(steps)
    ensures var s, t := Run(w, more), Run(w, steps).task;
            && Drops(w, more) == (if ignores then Drops(w, steps) + [t.checkpoint] else Drops(w, steps))
            && s.task.status.Leased? && s.task.sequence == t.sequence + 1 && s.task.final == t.final
            && s.task.checkpoint == StartAt(t.checkpoint, ignores) + 1 && s.finals == Run(w, steps).finals
            && s.attempts.Keys == Run(w, steps).attempts.Keys + {e}
            && (forall m :: m in s.wire ==> m in Run(w, steps).wire || m.engine == e)
  {
    ExtendLease(w, steps, e, false, ignores);
    LeaseReady(w, steps, e, ignores);
    more := StoreOne(w, steps + [StepLease(e, {}, false, ignores)], e);
    assert Drops(w, steps) + [] == Drops(w, steps);
  }

  /** The holder, at rest with the store, has its next batch accepted. */
  lemma StoreOne(w: Work, steps: seq<Step>, e: nat) returns (more: seq<Step>)
    requires WellFormed(w) && Legal(w, steps) && Ready(w, Run(w, steps), e)
    requires var t := Run(w, steps).task;
             && t.engine == Some(e) && t.status.Leased? && t.resultKey.None?
             && t.sequence == Run(w, steps).attempts[e].ledger.sequence < MAX_BATCH_SEQUENCE
    ensures Legal(w, more) && NoDiscards(more) == NoDiscards(steps)
    ensures Drops(w, more) == Drops(w, steps) + SetAside(w, steps)
    ensures var s, t := Run(w, more), Run(w, steps).task;
            && s.task.status.Leased? && s.task.sequence == t.sequence + 1 && s.task.final == t.final
            && s.task.checkpoint == Run(w, steps).attempts[e].pos + 1 && s.finals == Run(w, steps).finals
            && s.attempts.Keys == Run(w, steps).attempts.Keys
            && (forall m :: m in s.wire ==> m in Run(w, steps).wire || m.engine == e)
  {
    var flushed, m := OneBatch(w, steps, e);
    Delivers(w, flushed, m);
    more := flushed + [StepDeliver(m)];
  }

  lemma NothingYet(w: Work, none: seq<Step>)
    requires none == []
    ensures Legal(w, none) && Run(w, none) == Start() && Drops(w, none) == [] && NoDiscards(none)
  {
  }

  /** A first attempt that stored one batch before its lease lapsed. */
  lemma OneBatchStored(w: Work, e: nat) returns (steps: seq<Step>)
    requires WellFormed(w) && |w.units| >= 2
    ensures Legal(w, steps) && Drops(w, steps) == [] && NoDiscards(steps)
    ensures var s := Run(w, steps);
            && s.task.status.Queued? && s.task.checkpoint == 1 && s.task.sequence == 1 && s.task.final.None?
            && s.attempts.Keys == {e} && (forall m :: m in s.wire ==> m.engine == e) && s.finals == {}
  {
    var none: seq<Step> := [];
    NothingYet(w, none);
    var stored := LeaseAndStore(w, none, e, false);
    ExtendQuietly(w, stored, StepReclaim);
    steps := stored + [StepReclaim];
  }

  /** The API drops the position after a configuration change: its units will be counted again. */
  lemma ConfigurationChangeRestarts(w: Work) returns (steps: seq<Step>)
    requires WellFormed(w) && |w.units| >= 2
    ensures Legal(w, steps) && Drops(w, steps) == [1] && Restarts(w, steps)
  {
    steps := OneBatchStored(w, 1);
    ExtendLease(w, steps, 2, true, false);
    steps := steps + [StepLease(2, {}, true, false)];
    assert Drops(w, steps)[0] > 0;
  }

  /**
   An engine that does not speak the stored checkpoint's version starts over: without the API
   dropping anything, the first unit is stored and counted twice.
   */
  lemma VersionChangeCountsTwice(w: Work) returns (steps: seq<Step>)
    requires WellFormed(w) && |w.units| >= 2
    ensures Legal(w, steps) && Restarts(w, steps) && NoDiscards(steps)
    ensures var t := Run(w, steps).task;
            t.checkpoint == 1 && AcceptedUnits(w, t) == w.units[..1] + w.units[..1]
  {
    steps := StoredAgain(w, 1, 2);
    CountedTwice(w, steps);
  }

  lemma StoredAgain(w: Work, first: nat, second: nat) returns (steps: seq<Step>)
    requires WellFormed(w) && |w.units| >= 2 && first != second
    ensures Legal(w, steps) && Drops(w, steps) == [1] && NoDiscards(steps)
    ensures Run(w, steps).task.checkpoint == 1 && Run(w, steps).task.final.None?
  {
    var stored := OneBatchStored(w, first);
    QueuedHasNoResult(w, stored);
    steps := LeaseAndStore(w, stored, second, true);
  }

  lemma QueuedHasNoResult(w: Work, steps: seq<Step>)
    requires WellFormed(w) && Legal(w, steps) && Run(w, steps).task.status.Queued?
    ensures Run(w, steps).task.resultKey.None?
  {
    RunKeeps(w, steps);
  }

  lemma CountedTwice(w: Work, steps: seq<Step>)
    requires WellFormed(w) && |w.units| >= 1 && Legal(w, steps) && Drops(w, steps) == [1]
    requires Run(w, steps).task.checkpoint == 1 && Run(w, steps).task.final.None?
    ensures Restarts(w, steps) && AcceptedUnits(w, Run(w, steps).task) == w.units[..1] + w.units[..1]
  {
    assert Drops(w, steps)[0] > 0;
    AcceptedWork(w, steps);
    OneDropped(w, Drops(w, steps));
  }

  lemma OneDropped(w: Work, positions: seq<nat>)
    requires positions == [1] && |w.units| >= 1
    ensures Dropped(w, positions) == w.units[..1]
  {
    assert Dropped(w, positions) == Dropped(w, positions[..0]) + Prefix(w, positions[0]);
    assert |positions[..0]| == 0;
  }

  /** A lease that fails after a batch was stored leaves a report of nothing read. */
  lemma FailedLeaseLosesCoverage(w: Work) returns (steps: seq<Step>)
    requires WellFormed(w) && |w.units| >= 2 && w.units[0].ops + w.units[0].mark != []
    ensures Legal(w, steps) && Overwrites(w, steps)
    ensures var t := Run(w, steps).task;
            && t.coverage == Some(FailureReport(ConnectorError))
            && t.coverage != Some(Payload(AcceptedOps(w, t) + t.closing))
  {
    var stored := OneBatchStored(w, 1);
    FirstUnitCounted(w, stored);
    var step := StepLeaseFails(2, ConnectorError);
    ExtendQuietly(w, stored, step);
    steps := stored + [step];
    assert steps[..|steps| - 1] == stored;
    CoverageSurvivesIff(w, steps);
  }

  lemma FirstUnitCounted(w: Work, steps: seq<Step>)
    requires WellFormed(w) && Legal(w, steps) && Drops(w, steps) == [] && |w.units| >= 1
    requires Run(w, steps).task.final.None? && Run(w, steps).task.checkpoint == 1
    ensures AcceptedOps(w, Run(w, steps).task) == w.units[0].ops + w.units[0].mark
  {
    AcceptedWork(w, steps);
    OneUnitOps(w.units[..1]);
    assert [] + w.units[..1] == w.units[..1];
  }

  lemma OneUnitOps(us: seq<Unit>)
    requires |us| == 1
    ensures OpsOf(us) == us[0].ops + us[0].mark
  {
    assert |us[..0]| == 0;
    assert OpsOf(us) == OpsOf(us[..0]) + (us[0].ops + us[0].mark);
  }
}
