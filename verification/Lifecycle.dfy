/**
 The findings register over whole runs: suppressions created, deleted and lapsing, submissions
 ingested, analysts triaging and scans reconciling, in any order.
 */
module Lifecycle {
  import opened Basics
  import opened Findings
  import opened Trail
  import opened Ingest
  import opened Suppressions

  datatype Register = Register(rows: Table, suppressions: seq<Suppression>)

  /** What one submission carries besides the rules in force, which are read from the register. */
  datatype Batch = Batch(source: nat, scan: nat, at: int, policy: Policy, correlate: Option<string -> string>,
                         payloads: seq<Payload>, stamps: seq<Stamp>, threshold: real)

  datatype Action =
    | CreateSuppression(s: Suppression, at: int, actor: nat)
    | DeleteSuppression(id: nat, at: int, actor: nat)
    | LapseSuppressions(at: int)
    | Submit(batch: Batch)
    | Triage(finding: nat, patch: Patch, actor: nat, evidence: Option<bool>)
    | Reconcile(source: nat, scan: nat, sawContent: bool)

  function ContextOf(r: Register, b: Batch): Context {
    Context(b.source, b.scan, b.at, Applicable(r.suppressions, b.source, b.at), b.policy, b.correlate)
  }

  function Triaged(f: Finding, p: Patch, actor: nat, evidence: Option<bool>): Finding {
    if Refused(f, p, evidence).Some? then f else Patched(f, p, actor)
  }

  /** A completed scan resolves what it did not see, unless it saw nothing at all. */
  function Reconciled(rows: Table, source: nat, scan: nat, sawContent: bool): Table {
    if !sawContent then rows else map id | id in rows :: AutoResolved(rows[id], source, scan)
  }

  ghost predicate Submittable(r: Register, b: Batch) {
    FreshStamps(b.stamps, r.rows) && |Scored(b.payloads, b.threshold)| <= |b.stamps|
  }

  ghost function Next(r: Register, a: Action): Register {
    match a
    case CreateSuppression(s, at, actor) =>
      Register(Suppressions.Created(r.rows, s, at, Some(actor)), r.suppressions + [s])
    case DeleteSuppression(id, at, actor) =>
      if ById(r.suppressions, id).None? then r
      else Register(Deleted(r.rows, r.suppressions, id, at, Some(actor)), Without(r.suppressions, id))
    case LapseSuppressions(at) => Register(Lapsed(r.rows, r.suppressions, at), r.suppressions)
    case Submit(b) =>
      if Submittable(r, b) then
        Register(IngestEach(r.rows, Scored(b.payloads, b.threshold), ContextOf(r, b), b.stamps).rows, r.suppressions)
      else r
    case Triage(id, patch, actor, evidence) =>
      if id !in r.rows then r
      else Register(r.rows[id := Triaged(r.rows[id], patch, actor, evidence)], r.suppressions)
    case Reconcile(source, scan, sawContent) => Register(Reconciled(r.rows, source, scan, sawContent), r.suppressions)
  }

  /** A fingerprint is derived from its rule, so one fingerprint always comes with one rule, under either pepper. */
  ghost predicate RuleStable(p: Payload, ruleOf: string -> string) {
    && p.ruleId == ruleOf(p.fingerprint)
    && (HasPrevious(p) ==> ruleOf(p.previousFingerprint.value) == p.ruleId)
  }

  /** Database ids are unique, and engines derive fingerprints from rules. */
  ghost predicate Allowed(r: Register, a: Action, ruleOf: string -> string) {
    match a
    case CreateSuppression(s, _, _) => forall t :: t in r.suppressions ==> t.id != s.id
    case Submit(b) => Submittable(r, b) && forall i :: 0 <= i < |b.payloads| ==> RuleStable(b.payloads[i], ruleOf)
    case _ => true
  }

  ghost predicate RowOk(f: Finding, all: seq<Suppression>, ruleOf: string -> string) {
    Justified(f, all) && Traced(f) && f.ruleId == ruleOf(f.fingerprint)
  }

  ghost predicate RowsOk(rows: Table, all: seq<Suppression>, ruleOf: string -> string) {
    forall id :: id in rows ==> RowOk(rows[id], all, ruleOf)
  }

  ghost predicate Inv(r: Register, ruleOf: string -> string) {
    UniqueFingerprints(r.rows) && DistinctIds(r.suppressions) && RowsOk(r.rows, r.suppressions, ruleOf)
  }

  // ----- what happens to one finding -----

  predicate NamesOwner(a: Action, id: nat) {
    a.Triage? && a.finding == id && a.patch.owner.Some?
  }

  predicate MovesState(a: Action, id: nat) {
    a.Triage? && a.finding == id && a.patch.state.Some?
  }

  /** A decision of an analyst about the secret, as opposed to open or resolved. */
  predicate Judged(f: Finding) {
    f.standing.state == FalsePositive || f.standing.state == AcceptedRisk
  }

  /** The trail only grows, the row keeps its place, and decisions stay with the people who may take them. */
  ghost predicate Follows(f: Finding, g: Finding, byOwner: bool, byState: bool) {
    && f.events <= g.events
    && f.source == g.source && f.createdAt == g.createdAt && f.ruleId == g.ruleId
    && (f.standing.pinned ==> g.standing.pinned)
    && (!byOwner && (f.standing.pinned || f.standing.owner.Some?) ==>
          g.standing.owner == f.standing.owner && g.standing.pinned == f.standing.pinned)
    && (!byState && Judged(f) ==> g.standing.state == f.standing.state)
  }

  /** Same identity, same standing, a longer trail. */
  ghost predicate OnlyMarked(f: Finding, g: Finding) {
    && SameIdentity(f, g) && f.display == g.display && f.standing == g.standing && f.events <= g.events
  }

  lemma SuppressMarks(f: Finding, s: Suppression, at: int, actor: Option<nat>)
    ensures OnlyMarked(f, Suppress(f, s, at, actor))
  {
  }

  lemma ReleaseMarks(f: Finding, actor: Option<nat>, why: Remark)
    ensures OnlyMarked(f, Release(f, actor, why))
  {
  }

  lemma HandOverOk(f: Finding, c: Option<Suppression>, actor: Option<nat>, why: Remark)
    requires Traced(f)
    ensures OnlyMarked(f, HandOver(f, c, actor, why)) && Traced(HandOver(f, c, actor, why))
  {
    ReleaseMarks(f, actor, why);
    ReleaseTraces(f, actor, why);
  }

  lemma CreatingOk(f: Finding, s: Suppression, all: seq<Suppression>, at: int, actor: Option<nat>,
                   ruleOf: string -> string)
    requires RowOk(f, all, ruleOf)
    ensures RowOk(Creating(s, f, at, actor), all + [s], ruleOf) && OnlyMarked(f, Creating(s, f, at, actor))
  {
    CreateJustifies(s, all, f, at, actor);
    SuppressMarks(f, s, at, actor);
    SuppressTraces(f, s, at, actor);
  }

  lemma DeletingOk(f: Finding, all: seq<Suppression>, id: nat, at: int, actor: Option<nat>, ruleOf: string -> string)
    requires RowOk(f, all, ruleOf)
    ensures RowOk(Deleting(all, id, f, at, actor), Without(all, id), ruleOf) &&
            OnlyMarked(f, Deleting(all, id, f, at, actor))
  {
    DeleteJustifies(all, id, f, at, actor);
    HandOverOk(f, CoverFor(Others(all, f.source, at, id), f), actor, SuppressionDeleted(id));
  }

  lemma LapsingOk(f: Finding, all: seq<Suppression>, at: int, ruleOf: string -> string)
    requires RowOk(f, all, ruleOf) && DistinctIds(all) && Hidden(f)
    ensures RowOk(Lapsing(all, f, at), all, ruleOf) && OnlyMarked(f, Lapsing(all, f, at))
  {
    LapseJustifies(all, f, at);
    var own := ById(all, f.suppressedBy.value);
    HandOverOk(f, CoverFor(Applicable(all, f.source, at), f), None,
               if own.None? then SuppressionGone else SuppressionExpired(own.value.id));
  }

  // ----- a sighting -----

  ghost predicate SameMarks(f: Finding, g: Finding) {
    f.suppressedAt == g.suppressedAt && f.suppressedBy == g.suppressedBy && f.display == g.display &&
        f.events <= g.events
  }

  lemma RoutedMarks(f: Finding, policy: Policy, at: int, restart: bool)
    ensures SameMarks(f, StartClock(Route(f, policy), policy, at, restart))
  {
    assert SameMarks(f, Route(f, policy));
  }

  lemma RedisplayedMarks(f: Finding, p: Payload, ctx: Context)
    ensures var g := Redisplayed(f, p, ctx);
            g.suppressedAt == f.suppressedAt && g.suppressedBy == f.suppressedBy && g.display == p.display &&
                f.events <= g.events
  {
  }

  lemma ReopenMarks(f: Finding)
    ensures SameMarks(f, Reopen(f))
  {
  }

  predicate NoStrayMark(f: Finding) {
    !Hidden(f) ==> f.suppressedBy == None
  }

  /** The row names the suppression if there is one, and is in view if there is none. */
  predicate Marked(f: Finding, cover: Option<Suppression>) {
    if cover.Some? then Hidden(f) && f.suppressedBy == Some(cover.value.id)
    else !Hidden(f) && f.suppressedBy == None
  }

  lemma SettledMarks(f: Finding, cover: Option<Suppression>, ctx: Context)
    requires NoStrayMark(f)
    ensures Marked(Settled(f, cover, ctx), cover) && OnlyMarked(f, Settled(f, cover, ctx))
  {
  }

  lemma PrefixIsTransitive(a: seq<Event>, b: seq<Event>, c: seq<Event>)
    requires a <= b <= c
    ensures a <= c
  {
  }

  lemma RefreshedMarks(f: Finding, p: Payload, ctx: Context)
    requires NoStrayMark(f)
    ensures var g := Refreshed(f, p, ctx);
            Marked(g, PayloadCover(ctx, p)) && g.display == p.display && f.events <= g.events
  {
    var restart := f.standing.state == Resolved;
    var shown := Redisplayed(f, p, ctx);
    var open := Reopen(shown);
    var clocked := StartClock(Route(open, ctx.policy), ctx.policy, ctx.at, restart);
    RedisplayedMarks(f, p, ctx);
    ReopenMarks(shown);
    RoutedMarks(open, ctx.policy, ctx.at, restart);
    SettledMarks(clocked, PayloadCover(ctx, p), ctx);
    PrefixIsTransitive(f.events, shown.events, open.events);
    PrefixIsTransitive(f.events, open.events, clocked.events);
    PrefixIsTransitive(f.events, clocked.events, Refreshed(f, p, ctx).events);
  }

  lemma CreatedMarks(p: Payload, ctx: Context, createdAt: int)
    ensures Marked(Findings.Created(p, ctx, createdAt), PayloadCover(ctx, p))
    ensures Findings.Created(p, ctx, createdAt).display == p.display
  {
    RoutedMarks(RecordValidation(NewRow(p, ctx, createdAt), p), ctx.policy, ctx.at, false);
  }

  /** A row marked with what matched its payload names a suppression in force that matches the row itself. */
  lemma MarkedIsJustified(f: Finding, p: Payload, ctx: Context, all: seq<Suppression>)
    requires Marked(f, PayloadCover(ctx, p)) && f.display == p.display
    requires f.fingerprint == p.fingerprint && f.ruleId == p.ruleId && f.source == ctx.source
    requires ctx.rules == Applicable(all, ctx.source, ctx.at)
    ensures Justified(f, all)
  {
    FirstMatchIs(ctx.rules, p.fingerprint, p.ruleId, p.display.locator);
    var cover := PayloadCover(ctx, p);
    if cover.Some? {
      ApplicableIff(all, ctx.source, ctx.at, cover.value);
      assert Hides(cover.value, f);
    }
  }

  /** The row a payload writes keeps the invariant, and an existing row is continued. */
  lemma WrittenOk(rows: Table, p: Payload, ctx: Context, stamp: Stamp, all: seq<Suppression>, ruleOf: string -> string)
    requires UniqueFingerprints(rows) && RowsOk(rows, all, ruleOf) && RuleStable(p, ruleOf)
    requires ctx.rules == Applicable(all, ctx.source, ctx.at)
    ensures RowOk(Written(rows, p, ctx, stamp, TargetOf(rows, p, ctx.source)), all, ruleOf)
  {
    WrittenIsNamed(rows, p, ctx, stamp);
    var target := TargetOf(rows, p, ctx.source);
    var g := Written(rows, p, ctx, stamp, target);
    match target
    case Fresh =>
      CreatedIdentity(p, ctx, stamp.createdAt);
      CreatedMarks(p, ctx, stamp.createdAt);
      CreatedTraces(p, ctx, stamp.createdAt);
      MarkedIsJustified(g, p, ctx, all);
    case Seen(id) =>
      assert RowOk(rows[id], all, ruleOf);
      RefreshedOk(rows[id], p, ctx, all, ruleOf);
    case Moved(id) =>
      assert RowOk(rows[id], all, ruleOf);
      RefreshedOk(Rekeyed(rows[id], p, ctx), p, ctx, all, ruleOf);
  }

  lemma RefreshedOk(f: Finding, p: Payload, ctx: Context, all: seq<Suppression>, ruleOf: string -> string)
    requires NoStrayMark(f) && Traced(f) && f.fingerprint == p.fingerprint && f.ruleId == p.ruleId &&
             f.source == ctx.source
    requires RuleStable(p, ruleOf) && ctx.rules == Applicable(all, ctx.source, ctx.at)
    ensures RowOk(Refreshed(f, p, ctx), all, ruleOf)
  {
    var g := Refreshed(f, p, ctx);
    RefreshKeepsIdentity(f, p, ctx);
    RefreshedMarks(f, p, ctx);
    RefreshedTraces(f, p, ctx);
    MarkedIsJustified(g, p, ctx, all);
  }

  lemma {:induction false} SubmitRowsOk(rows: Table, ps: seq<Payload>, ctx: Context, stamps: seq<Stamp>,
                                        all: seq<Suppression>,
                                        ruleOf: string -> string)
    requires |ps| <= |stamps| && UniqueFingerprints(rows) && RowsOk(rows, all, ruleOf)
    requires ctx.rules == Applicable(all, ctx.source, ctx.at)
    requires forall i :: 0 <= i < |ps| ==> RuleStable(ps[i], ruleOf)
    ensures RowsOk(IngestEach(rows, ps, ctx, stamps).rows, all, ruleOf)
  {
    if ps != [] {
      var k := |ps| - 1;
      SubmitRowsOk(rows, ps[..k], ctx, stamps, all, ruleOf);
      IngestKeepsUnique(rows, ps[..k], ctx, stamps);
      WrittenOk(IngestEach(rows, ps[..k], ctx, stamps).rows, ps[k], ctx, stamps[k], all, ruleOf);
    }
  }

  lemma {:induction false} ScoredAreStable(ps: seq<Payload>, threshold: real, ruleOf: string -> string)
    requires forall i :: 0 <= i < |ps| ==> RuleStable(ps[i], ruleOf)
    ensures forall i :: 0 <= i < |Scored(ps, threshold)| ==> RuleStable(Scored(ps, threshold)[i], ruleOf)
  {
    if ps != [] {
      ScoredAreStable(ps[..|ps| - 1], threshold, ruleOf);
    }
  }

  // ----- triage and reconciliation -----

  lemma PatchedMarks(f: Finding, p: Patch, actor: nat)
    ensures var g := Patched(f, p, actor);
            && SameIdentity(f, g) && f.suppressedAt == g.suppressedAt && f.suppressedBy == g.suppressedBy
            && f.display == g.display && f.events <= g.events
  {
  }

  /** A refused patch changes nothing; it is refused exactly for an illegal move or missing evidence. */
  lemma TriagedOk(f: Finding, p: Patch, actor: nat, evidence: Option<bool>, all: seq<Suppression>,
                  ruleOf: string -> string)
    requires RowOk(f, all, ruleOf)
    ensures RowOk(Triaged(f, p, actor, evidence), all, ruleOf)
    ensures Follows(f, Triaged(f, p, actor, evidence), p.owner.Some?, p.state.Some?)
    ensures Refused(f, p, evidence).Some? ==> Triaged(f, p, actor, evidence) == f
    ensures Refused(f, p, evidence).None? && p.state.Some? ==>
            Triaged(f, p, actor, evidence).standing.state == p.state.value
  {
    if Refused(f, p, evidence).None? {
      PatchedTraces(f, p, actor);
      PatchedMarks(f, p, actor);
      if Hidden(f) {
        var s :| s in all && Hides(s, f);
        assert Hides(s, Patched(f, p, actor));
      }
    }
  }

  lemma AutoResolvedOk(f: Finding, source: nat, scan: nat, all: seq<Suppression>, ruleOf: string -> string)
    requires RowOk(f, all, ruleOf)
    ensures RowOk(AutoResolved(f, source, scan), all, ruleOf)
    ensures Follows(f, AutoResolved(f, source, scan), false, false)
  {
    AutoResolvedTraces(f, source, scan);
  }

  // ----- every action keeps the invariant -----

  lemma AppendStaysDistinct(all: seq<Suppression>, s: Suppression)
    requires DistinctIds(all) && forall t :: t in all ==> t.id != s.id
    ensures DistinctIds(all + [s])
  {
  }

  lemma SameNamesStayUnique(rows: Table, after: Table)
    requires UniqueFingerprints(rows) && after.Keys == rows.Keys
    requires forall id :: id in rows ==>
             after[id].source == rows[id].source && after[id].fingerprint == rows[id].fingerprint
    ensures UniqueFingerprints(after)
  {
    forall a, b | a in after && b in after && a != b
      ensures !Named(after[a], after[b].source, after[b].fingerprint)
    {
      assert a in rows && b in rows && !Named(rows[a], rows[b].source, rows[b].fingerprint);
    }
  }

  lemma CreateKeeps(r: Register, s: Suppression, at: int, actor: nat, ruleOf: string -> string)
    requires Inv(r, ruleOf) && Allowed(r, CreateSuppression(s, at, actor), ruleOf)
    ensures Inv(Next(r, CreateSuppression(s, at, actor)), ruleOf)
  {
    forall id | id in r.rows
      ensures RowOk(Creating(s, r.rows[id], at, Some(actor)), r.suppressions + [s], ruleOf)
      ensures OnlyMarked(r.rows[id], Creating(s, r.rows[id], at, Some(actor)))
    {
      CreatingOk(r.rows[id], s, r.suppressions, at, Some(actor), ruleOf);
    }
    AppendStaysDistinct(r.suppressions, s);
    SameNamesStayUnique(r.rows, Suppressions.Created(r.rows, s, at, Some(actor)));
  }

  lemma DeleteKeeps(r: Register, id: nat, at: int, actor: nat, ruleOf: string -> string)
    requires Inv(r, ruleOf)
    ensures Inv(Next(r, DeleteSuppression(id, at, actor)), ruleOf)
  {
    forall k | k in r.rows
      ensures RowOk(Deleting(r.suppressions, id, r.rows[k], at, Some(actor)), Without(r.suppressions, id), ruleOf)
      ensures OnlyMarked(r.rows[k], Deleting(r.suppressions, id, r.rows[k], at, Some(actor)))
    {
      DeletingOk(r.rows[k], r.suppressions, id, at, Some(actor), ruleOf);
    }
    WithoutStaysDistinct(r.suppressions, id);
    SameNamesStayUnique(r.rows, Deleted(r.rows, r.suppressions, id, at, Some(actor)));
  }

  lemma LapseKeeps(r: Register, at: int, ruleOf: string -> string)
    requires Inv(r, ruleOf)
    ensures Inv(Next(r, LapseSuppressions(at)), ruleOf)
  {
    var after := Lapsed(r.rows, r.suppressions, at);
    forall id | id in r.rows ensures RowOk(after[id], r.suppressions, ruleOf) && OnlyMarked(r.rows[id], after[id]) {
      if Hidden(r.rows[id]) {
        LapsingOk(r.rows[id], r.suppressions, at, ruleOf);
      }
    }
    SameNamesStayUnique(r.rows, after);
  }

  lemma SubmitKeeps(r: Register, b: Batch, ruleOf: string -> string)
    requires Inv(r, ruleOf) && Allowed(r, Submit(b), ruleOf)
    ensures Inv(Next(r, Submit(b)), ruleOf)
  {
    ScoredAreStable(b.payloads, b.threshold, ruleOf);
    IngestKeepsUnique(r.rows, Scored(b.payloads, b.threshold), ContextOf(r, b), b.stamps);
    SubmitRowsOk(r.rows, Scored(b.payloads, b.threshold), ContextOf(r, b), b.stamps, r.suppressions, ruleOf);
  }

  /** Putting an altered row in place of one keeps the register in order. */
  lemma OneRowKeeps(r: Register, id: nat, f: Finding, ruleOf: string -> string)
    requires Inv(r, ruleOf) && id in r.rows && RowOk(f, r.suppressions, ruleOf)
    requires f.source == r.rows[id].source && f.fingerprint == r.rows[id].fingerprint
    ensures Inv(r.(rows := r.rows[id := f]), ruleOf)
  {
    SameNamesStayUnique(r.rows, r.rows[id := f]);
  }

  lemma TriageKeeps(r: Register, id: nat, p: Patch, actor: nat, evidence: Option<bool>, ruleOf: string -> string)
    requires Inv(r, ruleOf)
    ensures Inv(Next(r, Triage(id, p, actor, evidence)), ruleOf)
  {
    if id in r.rows {
      TriagedOk(r.rows[id], p, actor, evidence, r.suppressions, ruleOf);
      PatchedMarks(r.rows[id], p, actor);
      OneRowKeeps(r, id, Triaged(r.rows[id], p, actor, evidence), ruleOf);
    }
  }

  lemma ReconciledRowsOk(r: Register, source: nat, scan: nat, sawContent: bool, ruleOf: string -> string)
    requires Inv(r, ruleOf)
    ensures RowsOk(Reconciled(r.rows, source, scan, sawContent), r.suppressions, ruleOf)
  {
    forall id | id in r.rows ensures RowOk(AutoResolved(r.rows[id], source, scan), r.suppressions, ruleOf) {
      AutoResolvedOk(r.rows[id], source, scan, r.suppressions, ruleOf);
    }
  }

  lemma ReconciledStayUnique(rows: Table, source: nat, scan: nat, sawContent: bool)
    requires UniqueFingerprints(rows)
    ensures UniqueFingerprints(Reconciled(rows, source, scan, sawContent))
  {
    SameNamesStayUnique(rows, Reconciled(rows, source, scan, sawContent));
  }

  lemma ReconcileKeeps(r: Register, source: nat, scan: nat, sawContent: bool, ruleOf: string -> string)
    requires Inv(r, ruleOf)
    ensures Inv(Next(r, Reconcile(source, scan, sawContent)), ruleOf)
  {
    ReconciledRowsOk(r, source, scan, sawContent, ruleOf);
    ReconciledStayUnique(r.rows, source, scan, sawContent);
  }

  lemma StepKeeps(r: Register, a: Action, ruleOf: string -> string)
    requires Inv(r, ruleOf) && Allowed(r, a, ruleOf)
    ensures Inv(Next(r, a), ruleOf)
  {
    match a
    case CreateSuppression(s, at, actor) => CreateKeeps(r, s, at, actor, ruleOf);
    case DeleteSuppression(id, at, actor) => DeleteKeeps(r, id, at, actor, ruleOf);
    case LapseSuppressions(at) => LapseKeeps(r, at, ruleOf);
    case Submit(b) => SubmitKeeps(r, b, ruleOf);
    case Triage(id, p, actor, evidence) => TriageKeeps(r, id, p, actor, evidence, ruleOf);
    case Reconcile(source, scan, sawContent) => ReconcileKeeps(r, source, scan, sawContent, ruleOf);
  }
}
