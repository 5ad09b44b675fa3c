/**
 The mutable recorder of one fetch. Each recording either refuses and changes nothing or
 appends one operation to the recorded history, and the report is always
 `Coverage.Payload` of that history.
 */
module CoverageRecorder {
  import opened Basics
  import opened Coverage

  lemma SkipCounted(ops: seq<Op>, op: Op)
    requires op.Skip?
    ensures var c := CountsOf(ops);
            CountsOf(ops + [op]) == Counts(c.requested + 1, c.discovered + 1, c.scanned, c.skipped + 1, c.failed)
    ensures Sum(ScopeGaps, ops + [op]) == Sum(ScopeGaps, ops)
  {
    OneMore(ops, op);
  }

  lemma FailCounted(ops: seq<Op>, op: Op)
    requires op.Fail?
    ensures var c := CountsOf(ops);
            CountsOf(ops + [op]) == Counts(c.requested + 1, c.discovered + 1, c.scanned, c.skipped, c.failed + 1)
    ensures Sum(ScopeGaps, ops + [op]) == Sum(ScopeGaps, ops)
  {
    OneMore(ops, op);
  }

  lemma TruncateCounted(ops: seq<Op>, op: Op)
    requires op.Truncate?
    ensures var c := CountsOf(ops);
            CountsOf(ops + [op]) == Counts(c.requested, c.discovered, c.scanned - 1, c.skipped, c.failed + 1)
    ensures Sum(ScopeGaps, ops + [op]) == Sum(ScopeGaps, ops)
  {
    OneMore(ops, op);
  }

  lemma LossCounted(ops: seq<Op>, op: Op)
    requires op.ScopeLoss? || op.TaskLoss?
    ensures CountsOf(ops + [op]) == CountsOf(ops)
    ensures Sum(ScopeGaps, ops + [op]) == Sum(ScopeGaps, ops) + 1
  {
    OneMore(ops, op);
  }

  class TaskCoverage {
    var counts: Counts
    var scopeGaps: int
    var reasonCounts: Counter
    var gaps: seq<Gap>
    var gapsOmitted: int
    ghost var history: seq<Op>

    ghost predicate Valid()
      reads this
    {
      && counts == CountsOf(history) && scopeGaps == Sum(ScopeGaps, history)
      && reasonCounts == CounterOf(history) && gaps == Retained(history)
      && gapsOmitted == Sum(GapCount, history) - |gaps|
    }

    constructor ()
      ensures Valid() && history == []
    {
      counts, scopeGaps := Counts(0, 0, 0, 0, 0), 0;
      reasonCounts, gaps, gapsOmitted := map[], [], 0;
      history := [];
    }

    /** Count the reason and keep the reference while there is room for it. */
    method RecordGap(ghost op: Op, key: Key, kind: ObjectKind, reference: Option<string>)
      requires !op.Scan? && KeyOf(op) == Some(key) && KindOf(op) == kind && op.reference == reference
      requires reasonCounts == CounterOf(history) && gaps == Retained(history)
      requires gapsOmitted == Sum(GapCount, history) - |gaps|
      modifies this`reasonCounts, this`gaps, this`gapsOmitted
      ensures reasonCounts == CounterOf(history + [op])
      ensures gaps == Retained(history + [op])
      ensures gapsOmitted == Sum(GapCount, history + [op]) - |gaps|
    {
      OneMore(history, op);
      reasonCounts := Bump(reasonCounts, Some(key));
      if reference.None? || |gaps| >= GAP_LIMIT {
        gapsOmitted := gapsOmitted + 1;
      } else {
        gaps := gaps + [Gap(kind, key, reference.value)];
      }
    }

    /** Take over the new counts of an observed object and record its gap. */
    method Count(ghost op: Op, after: Counts, key: Key, kind: ObjectKind, reference: Option<string>)
      requires Valid() && after == CountsOf(history + [op]) && Sum(ScopeGaps, history + [op]) == scopeGaps
      requires !op.Scan? && KeyOf(op) == Some(key) && KindOf(op) == kind && op.reference == reference
      modifies this
      ensures Valid() && history == old(history) + [op]
    {
      counts := after;
      RecordGap(op, key, kind, reference);
      history := history + [op];
    }

    method ScannedFor()
      requires Valid()
      modifies this
      ensures Valid() && history == old(history) + [Scan]
    {
      OneMore(history, Scan);
      counts := counts.(requested := counts.requested + 1, discovered := counts.discovered + 1,
                        scanned := counts.scanned + 1);
      history := history + [Scan];
    }

    method SkippedFor(reason: Reason, kind: ObjectKind, reference: Option<string>) returns (ok: bool)
      requires Valid()
      modifies this
      ensures ok == ReasonAllowed(Skipped, reason)
      ensures Valid()
      ensures history == old(history) + if ok then [Skip(reason, kind, reference)] else []
    {
      ok := ReasonAllowed(Skipped, reason);
      if ok {
        ghost var op := Skip(reason, kind, reference);
        SkipCounted(history, op);
        Count(op, counts.(requested := counts.requested + 1, discovered := counts.discovered + 1,
                          skipped := counts.skipped + 1), Key(Skipped, reason), kind, reference);
      }
    }

    method FailedFor(reason: Reason, kind: ObjectKind, reference: Option<string>) returns (ok: bool)
      requires Valid()
      modifies this
      ensures ok == ReasonAllowed(Failed, reason)
      ensures Valid()
      ensures history == old(history) + if ok then [Fail(reason, kind, reference)] else []
    {
      ok := ReasonAllowed(Failed, reason);
      if ok {
        ghost var op := Fail(reason, kind, reference);
        FailCounted(history, op);
        Count(op, counts.(requested := counts.requested + 1, discovered := counts.discovered + 1,
                          failed := counts.failed + 1), Key(Failed, reason), kind, reference);
      }
    }

    /** Replace an already recorded scan; refused when no scan is recorded. */
    method ScannedButIncomplete(reason: Reason, kind: ObjectKind, reference: Option<string>)
      returns (ok: bool)
      requires Valid()
      modifies this
      ensures ok == (ReasonAllowed(Failed, reason) && Sum(Scanned, old(history)) >= 1)
      ensures Valid()
      ensures history == old(history) + if ok then [Truncate(reason, kind, reference)] else []
    {
      ok := ReasonAllowed(Failed, reason) && counts.scanned >= 1;
      if ok {
        ghost var op := Truncate(reason, kind, reference);
        TruncateCounted(history, op);
        Count(op, counts.(scanned := counts.scanned - 1, failed := counts.failed + 1), Key(Failed, reason), kind,
              reference);
      }
    }

    /** Record lost work of unknown size, reported by the connector during the fetch. */
    method ScopeGapFor(reason: Reason, reference: Option<string>) returns (ok: bool)
      requires Valid()
      modifies this
      ensures ok == ReasonAllowed(ScopeGap, reason)
      ensures Valid()
      ensures history == old(history) + if ok then [ScopeLoss(reason, reference)] else []
    {
      ok := RecordScopeGap(ScopeLoss(reason, reference), reason, reference);
    }

    /** Record a task-wide blind spot after the fetch ended. */
    method TaskGapFor(reason: Reason, reference: Option<string>) returns (ok: bool)
      requires Valid()
      modifies this
      ensures ok == ReasonAllowed(ScopeGap, reason)
      ensures Valid()
      ensures history == old(history) + if ok then [TaskLoss(reason, reference)] else []
    {
      ok := RecordScopeGap(TaskLoss(reason, reference), reason, reference);
    }

    method RecordScopeGap(ghost op: Op, reason: Reason, reference: Option<string>) returns (ok: bool)
      requires Valid()
      requires op == ScopeLoss(reason, reference) || op == TaskLoss(reason, reference)
      modifies this
      ensures ok == ReasonAllowed(ScopeGap, reason)
      ensures Valid()
      ensures history == old(history) + if ok then [op] else []
    {
      ok := ReasonAllowed(ScopeGap, reason);
      if ok {
        LossCounted(history, op);
        scopeGaps := scopeGaps + 1;
        RecordGap(op, Key(ScopeGap, reason), ScopeKind, reference);
        history := history + [op];
      }
    }

    method AsPayload() returns (report: Report)
      requires Valid()
      ensures report == Payload(history)
    {
      report := Report(Fetch, counts, Scope(None, 0, scopeGaps), Subtotals(reasonCounts), gaps, gapsOmitted);
    }
  }
}
