/** What holds of the findings register in every run. */
module LifecycleTheorems {
  import opened Basics
  import opened Findings
  import opened Trail
  import opened Ingest
  import opened Suppressions
  import opened Lifecycle

  ghost predicate Possible(r: Register, run: seq<Action>, ruleOf: string -> string) {
    run == [] ||
    (Possible(r, run[..|run| - 1], ruleOf) && Allowed(Run(r, run[..|run| - 1]), run[|run| - 1], ruleOf))
  }

  ghost function Run(r: Register, run: seq<Action>): Register {
    if run == [] then r else Next(Run(r, run[..|run| - 1]), run[|run| - 1])
  }

  function Empty(): Register {
    Register(map[], [])
  }

  lemma EmptyIsValid(ruleOf: string -> string)
    ensures Inv(Empty(), ruleOf)
  {
  }

  lemma {:induction false} RunKeeps(r: Register, run: seq<Action>, ruleOf: string -> string)
    requires Inv(r, ruleOf) && Possible(r, run, ruleOf)
    ensures Inv(Run(r, run), ruleOf)
  {
    if run != [] {
      RunKeeps(r, run[..|run| - 1], ruleOf);
      StepKeeps(Run(r, run[..|run| - 1]), run[|run| - 1], ruleOf);
    }
  }

  // ----- suppression -----

  /**
   In every run from an empty register, a hidden finding names an existing suppression that
   applies to its source and matches it, and a finding in view names none.
   */
  lemma HiddenIsJustified(run: seq<Action>, ruleOf: string -> string, id: nat)
    requires Possible(Empty(), run, ruleOf) && id in Run(Empty(), run).rows
    ensures var r := Run(Empty(), run);
            if Hidden(r.rows[id]) then exists s :: s in r.suppressions && Hides(s, r.rows[id])
            else r.rows[id].suppressedBy == None
  {
    EmptyIsValid(ruleOf);
    RunKeeps(Empty(), run, ruleOf);
  }

  /**
   After a lapse sweep every hidden finding is hidden by a live suppression that matches it,
   and a finding is released exactly when no live suppression covers it.
   */
  lemma LapseLeavesOnlyLive(run: seq<Action>, at: int, ruleOf: string -> string, id: nat)
    requires Possible(Empty(), run, ruleOf) && id in Run(Empty(), run).rows
    ensures var r := Run(Empty(), run);
            var after := Next(r, LapseSuppressions(at)).rows;
            && id in after
            && (Hidden(after[id]) ==> exists s :: s in r.suppressions && Hides(s, after[id]) && Live(s, at))
            && (Hidden(r.rows[id]) ==> (!Hidden(after[id]) <==> !CoveredBy(r.suppressions, after[id], at)))
            && (!Hidden(r.rows[id]) ==> after[id] == r.rows[id])
  {
    EmptyIsValid(ruleOf);
    RunKeeps(Empty(), run, ruleOf);
    var r := Run(Empty(), run);
    var f := r.rows[id];
    assert RowOk(f, r.suppressions, ruleOf);
    if Hidden(f) {
      LapseJustifies(r.suppressions, f, at);
      LapsingOk(f, r.suppressions, at, ruleOf);
      SameCover(r.suppressions, f, Lapsing(r.suppressions, f, at), at);
    }
  }

  lemma SameCover(all: seq<Suppression>, f: Finding, g: Finding, at: int)
    requires OnlyMarked(f, g)
    ensures CoveredBy(all, f, at) <==> CoveredBy(all, g, at)
  {
    forall s | s in all ensures Covers(s, f) == Covers(s, g) {
    }
  }

  /** Deleting a suppression releases exactly those of its findings that no other live one covers. */
  lemma DeleteReleasesIff(run: seq<Action>, ruleOf: string -> string, gone: nat, at: int, actor: nat, id: nat)
    requires Possible(Empty(), run, ruleOf) && id in Run(Empty(), run).rows
    requires ById(Run(Empty(), run).suppressions, gone).Some?
    ensures var r := Run(Empty(), run);
            var f := r.rows[id];
            var next := Next(r, DeleteSuppression(gone, at, actor));
            && id in next.rows
            && (f.suppressedBy != Some(gone) ==> next.rows[id] == f)
            && (f.suppressedBy == Some(gone) ==> (Hidden(next.rows[id]) <==> CoveredBy(next.suppressions, f, at)))
  {
    EmptyIsValid(ruleOf);
    RunKeeps(Empty(), run, ruleOf);
    var r := Run(Empty(), run);
    assert RowOk(r.rows[id], r.suppressions, ruleOf);
    DeleteJustifies(r.suppressions, gone, r.rows[id], at, Some(actor));
  }

  /**
   Without the link between fingerprints and rules the guarantee breaks in exactly one case: a
   rule-wide suppression matches the payload's rule while the stored row keeps another.
   */
  lemma SightingJustifiedIff(f: Finding, p: Payload, ctx: Context, all: seq<Suppression>)
    requires NoStrayMark(f) && f.fingerprint == p.fingerprint && f.source == ctx.source
    requires DistinctIds(all) && ctx.rules == Applicable(all, ctx.source, ctx.at)
    ensures var cover := PayloadCover(ctx, p);
            Justified(Refreshed(f, p, ctx), all) <==>
            (cover.None? || cover.value.scope != ByRule || f.ruleId == p.ruleId)
  {
    var g, cover := Refreshed(f, p, ctx), PayloadCover(ctx, p);
    RefreshKeepsIdentity(f, p, ctx);
    RefreshedMarks(f, p, ctx);
    FirstMatchIs(ctx.rules, p.fingerprint, p.ruleId, p.display.locator);
    if cover.Some? {
      ApplicableIff(all, ctx.source, ctx.at, cover.value);
      assert Hides(cover.value, g) <==> (cover.value.scope != ByRule || f.ruleId == p.ruleId);
      if Justified(g, all) {
        var s :| s in all && Hides(s, g);
        SameIdSame(all, s, cover.value);
      }
    }
  }

  // ----- triage and ownership -----

  lemma OnlyMarkedFollows(f: Finding, g: Finding)
    requires OnlyMarked(f, g)
    ensures Follows(f, g, false, false)
  {
  }

  lemma FollowsIsTransitive(f: Finding, g: Finding, h: Finding, o: bool, s: bool, oo: bool, ss: bool)
    requires Follows(f, g, o, s) && Follows(g, h, oo, ss)
    ensures Follows(f, h, o || oo, s || ss)
  {
    PrefixIsTransitive(f.events, g.events, h.events);
  }

  lemma RefreshFollows(f: Finding, p: Payload, ctx: Context)
    requires Traced(f) && NoStrayMark(f)
    ensures Follows(f, Refreshed(f, p, ctx), false, false)
  {
    RefreshKeepsIdentity(f, p, ctx);
    RefreshedTraces(f, p, ctx);
    RefreshedMarks(f, p, ctx);
  }

  lemma OneFollows(state: Ingested, p: Payload, ctx: Context, stamp: Stamp, id: nat)
    requires id in state.rows && stamp.id !in state.rows && Traced(state.rows[id]) && NoStrayMark(state.rows[id])
    ensures id in IngestOne(state, p, ctx, stamp).rows
    ensures Follows(state.rows[id], IngestOne(state, p, ctx, stamp).rows[id], false, false)
  {
    var target := TargetOf(state.rows, p, ctx.source);
    if TargetId(target, stamp) == id {
      var f := if target.Moved? then Rekeyed(state.rows[id], p, ctx) else state.rows[id];
      RefreshFollows(f, p, ctx);
    }
  }

  lemma OneMoreFollows(first: Finding, before: Ingested, p: Payload, ctx: Context, stamp: Stamp, all: seq<Suppression>,
                       ruleOf: string -> string, id: nat)
    requires RowsOk(before.rows, all, ruleOf) && id in before.rows && stamp.id !in before.rows
    requires Follows(first, before.rows[id], false, false)
    ensures id in IngestOne(before, p, ctx, stamp).rows
    ensures Follows(first, IngestOne(before, p, ctx, stamp).rows[id], false, false)
  {
    assert RowOk(before.rows[id], all, ruleOf);
    OneFollows(before, p, ctx, stamp, id);
    FollowsIsTransitive(first, before.rows[id], IngestOne(before, p, ctx, stamp).rows[id], false, false, false, false);
  }

  lemma {:induction false} SubmitFollows(start: Table, ps: seq<Payload>, ctx: Context, stamps: seq<Stamp>,
                                         all: seq<Suppression>, ruleOf: string -> string, id: nat, after: Ingested)
    requires |ps| <= |stamps| && UniqueFingerprints(start) && RowsOk(start, all, ruleOf) && FreshStamps(stamps, start)
    requires ctx.rules == Applicable(all, ctx.source, ctx.at)
    requires forall i :: 0 <= i < |ps| ==> RuleStable(ps[i], ruleOf)
    requires id in start && after == IngestEach(start, ps, ctx, stamps)
    ensures id in after.rows && Follows(start[id], after.rows[id], false, false)
  {
    if ps != [] {
      var k := |ps| - 1;
      var before := IngestEach(start, ps[..k], ctx, stamps);
      SubmitFollows(start, ps[..k], ctx, stamps, all, ruleOf, id, before);
      SubmitRowsOk(start, ps[..k], ctx, stamps, all, ruleOf);
      LaterStampsStayFresh(start, ps[..k], ctx, stamps, k);
      OneMoreFollows(start[id], before, ps[k], ctx, stamps[k], all, ruleOf, id);
    }
  }

  /** What any action does to a finding that is already there. */
  lemma StepFollows(r: Register, a: Action, ruleOf: string -> string, id: nat)
    requires Inv(r, ruleOf) && Allowed(r, a, ruleOf) && id in r.rows
    ensures id in Next(r, a).rows
    ensures Follows(r.rows[id], Next(r, a).rows[id], NamesOwner(a, id), MovesState(a, id))
  {
    var f := r.rows[id];
    assert RowOk(f, r.suppressions, ruleOf);
    match a
    case CreateSuppression(s, at, actor) =>
      CreatingOk(f, s, r.suppressions, at, Some(actor), ruleOf);
      OnlyMarkedFollows(f, Creating(s, f, at, Some(actor)));
    case DeleteSuppression(gone, at, actor) =>
      DeletingOk(f, r.suppressions, gone, at, Some(actor), ruleOf);
      OnlyMarkedFollows(f, Deleting(r.suppressions, gone, f, at, Some(actor)));
    case LapseSuppressions(at) =>
      if Hidden(f) {
        LapsingOk(f, r.suppressions, at, ruleOf);
        OnlyMarkedFollows(f, Lapsing(r.suppressions, f, at));
      }
    case Submit(b) =>
      ScoredAreStable(b.payloads, b.threshold, ruleOf);
      SubmitFollows(r.rows, Scored(b.payloads, b.threshold), ContextOf(r, b), b.stamps, r.suppressions, ruleOf, id,
                    IngestEach(r.rows, Scored(b.payloads, b.threshold), ContextOf(r, b), b.stamps));
    case Triage(which, p, actor, evidence) =>
      TriagedOk(f, p, actor, evidence, r.suppressions, ruleOf);
    case Reconcile(source, scan, sawContent) =>
      AutoResolvedOk(f, source, scan, r.suppressions, ruleOf);
  }

  predicate NeverNamesOwner(run: seq<Action>, id: nat) {
    forall i :: 0 <= i < |run| ==> !NamesOwner(run[i], id)
  }

  predicate NeverMovesState(run: seq<Action>, id: nat) {
    forall i :: 0 <= i < |run| ==> !MovesState(run[i], id)
  }

  /**
   Through every run a finding is never lost and its trail only grows; an owner once set or
   pinned moves only by a patch that names one, a pin is never lifted, and an analyst's judgement
   changes only by a patch.
   */
  lemma {:induction false} RunFollows(r: Register, run: seq<Action>, ruleOf: string -> string, id: nat)
    requires Inv(r, ruleOf) && Possible(r, run, ruleOf) && id in r.rows
    ensures id in Run(r, run).rows
    ensures Follows(r.rows[id], Run(r, run).rows[id], !NeverNamesOwner(run, id), !NeverMovesState(run, id))
  {
    if run != [] {
      var before, last := run[..|run| - 1], run[|run| - 1];
      RunFollows(r, before, ruleOf, id);
      RunKeeps(r, before, ruleOf);
      StepFollows(Run(r, before), last, ruleOf, id);
      FollowsIsTransitive(r.rows[id], Run(r, before).rows[id], Run(r, run).rows[id],
                          !NeverNamesOwner(before, id), !NeverMovesState(before, id), NamesOwner(last, id),
                              MovesState(last, id));
      SplitsAtLast(run, id);
    }
  }

  lemma SplitsAtLast(run: seq<Action>, id: nat)
    requires run != []
    ensures NeverNamesOwner(run, id) ==> NeverNamesOwner(run[..|run| - 1], id) && !NamesOwner(run[|run| - 1], id)
    ensures NeverMovesState(run, id) ==> NeverMovesState(run[..|run| - 1], id) && !MovesState(run[|run| - 1], id)
  {
  }

  /**
   In every run, replaying a finding's events reproduces its state, resolution, owner, pin and
   assignee; a resolution is recorded exactly while it is resolved; and any two judgements in
   the trail have a reopen between them.
   */
  lemma TrailTellsAll(run: seq<Action>, ruleOf: string -> string, id: nat, i: nat, j: nat)
    requires Possible(Empty(), run, ruleOf) && id in Run(Empty(), run).rows
    ensures var f := Run(Empty(), run).rows[id];
            && Replay(f.events) == f.standing
            && (f.standing.resolution.Some? <==> f.standing.state == Resolved)
            && (i < j < |f.events| && f.events[i].StateChange? && f.events[j].StateChange? ==>
                  exists k :: i < k < j && f.events[k].Reopened?)
  {
    EmptyIsValid(ruleOf);
    RunKeeps(Empty(), run, ruleOf);
    var r := Run(Empty(), run);
    var f := r.rows[id];
    assert RowOk(f, r.suppressions, ruleOf);
    ResolutionExactlyWhenResolved(f.events);
    if i < j < |f.events| && f.events[i].StateChange? && f.events[j].StateChange? {
      ReopenBetweenJudgements(f.events, i, j);
    }
  }
}
