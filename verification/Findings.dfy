/**
 A finding's row and everything that writes to one: suppression marks, ownership routing, the
 response clock, triage patches and sightings. Each finding carries its own event trail.
 */
module Findings {
  import opened Basics

  datatype State = Open | FalsePositive | AcceptedRisk | Resolved
  datatype Resolution = Manual | Auto
  datatype Severity = Low | Medium | High | Critical
  datatype Scope = PathGlob | ByFingerprint | ByRule

  type Locator = map<string, string>

  datatype Validation = Validation(provider: string, validator: string, contract: string, status: string,
      reason: string)

  /** What a sighting refreshes without touching identity. */
  datatype Display = Display(locator: Locator, snippet: string, rulepack: string, entropy: Option<real>,
                             confidence: Option<real>, severity: Severity)

  datatype Remark =
    | Note(text: Option<string>)
    | SuppressionDeleted(id: nat)
    | SuppressionExpired(id: nat)
    | SuppressionGone
    | NothingMatched(scan: nat)

  /** An audit row. `actor` is absent where nobody decided and the system observed. */
  datatype Event =
    | StateChange(actor: Option<nat>, from: State, to: State)
    | Reopened(actor: Option<nat>, from: State, to: State)
    | OwnerSet(actor: Option<nat>, previous: Option<nat>, group: Option<nat>)
    | Assigned(actor: Option<nat>, previous: Option<nat>, assignee: Option<nat>)
    | Suppressed(actor: Option<nat>, scope: Scope, rule: nat)
    | Comment(actor: Option<nat>, remark: Remark)
    | Validated(before: Option<string>, status: string)

  /** The part of a finding that people and the system decide about. */
  datatype Standing = Standing(state: State, resolution: Option<Resolution>, owner: Option<nat>,
                               pinned: bool, assignee: Option<nat>)

  datatype Finding = Finding(source: nat, createdAt: int, fingerprint: string, ruleId: string, secretHash: string,
                             correlation: Option<string>, display: Display, standing: Standing,
                             notes: Option<string>, dueAt: Option<int>, validation: Option<Validation>,
                             lastSeen: nat, suppressedAt: Option<int>, suppressedBy: Option<nat>,
                             events: seq<Event>)

  type Table = map<nat, Finding>

  // ----- suppressions -----

  datatype Suppression = Suppression(id: nat, scope: Scope, pattern: string, source: Option<nat>,
      expiresAt: Option<int>)

  /** `fnmatchcase` for the metacharacters `*` and `?`; bracket classes are left out. */
  predicate GlobMatches(text: string, pattern: string)
    decreases |pattern|, |text|
  {
    if pattern == "" then text == ""
    else if pattern[0] == '*' then
      GlobMatches(text, pattern[1..]) || (text != "" && GlobMatches(text[1..], pattern))
    else text != "" && (pattern[0] == '?' || pattern[0] == text[0]) && GlobMatches(text[1..], pattern[1..])
  }

  const LOCATOR_PATH_KEYS: set<string> :=
    {"path", "url", "space", "space_key", "resource_id", "sub_resource", "title"}

  predicate PathMatches(locator: Locator, pattern: string) {
    exists key :: key in locator && key in LOCATOR_PATH_KEYS && GlobMatches(locator[key], pattern)
  }

  predicate Matches(s: Suppression, fingerprint: string, ruleId: string, locator: Locator) {
    match s.scope
    case ByFingerprint => s.pattern == fingerprint
    case ByRule => s.pattern == ruleId
    case PathGlob => PathMatches(locator, s.pattern)
  }

  predicate Covers(s: Suppression, f: Finding) {
    Matches(s, f.fingerprint, f.ruleId, f.display.locator)
  }

  predicate AppliesTo(s: Suppression, source: nat) {
    s.source.None? || s.source.value == source
  }

  predicate Live(s: Suppression, at: int) {
    s.expiresAt.None? || at < s.expiresAt.value
  }

  /** The live suppressions for a source and the global ones, in table order. */
  function Applicable(all: seq<Suppression>, source: nat, at: int): seq<Suppression> {
    if all == [] then []
    else
      var rest := Applicable(all[..|all| - 1], source, at);
      var last := all[|all| - 1];
      if AppliesTo(last, source) && Live(last, at) then rest + [last] else rest
  }

  lemma {:induction false} ApplicableIff(all: seq<Suppression>, source: nat, at: int, s: Suppression)
    ensures s in Applicable(all, source, at) <==> s in all && AppliesTo(s, source) && Live(s, at)
  {
    if all != [] {
      ApplicableIff(all[..|all| - 1], source, at, s);
      assert all == all[..|all| - 1] + [all[|all| - 1]];
    }
  }

  function FirstMatch(rules: seq<Suppression>, fingerprint: string, ruleId: string,
                      locator: Locator): Option<Suppression>
  {
    if rules == [] then None
    else if Matches(rules[0], fingerprint, ruleId, locator) then Some(rules[0])
    else FirstMatch(rules[1..], fingerprint, ruleId, locator)
  }

  /** A match is found exactly when some rule matches, and no rule before it does. */
  lemma {:induction false} FirstMatchIs(rules: seq<Suppression>, fingerprint: string, ruleId: string, locator: Locator)
    ensures FirstMatch(rules, fingerprint, ruleId, locator) == None <==>
            forall i :: 0 <= i < |rules| ==> !Matches(rules[i], fingerprint, ruleId, locator)
    ensures var m := FirstMatch(rules, fingerprint, ruleId, locator);
            m.Some? ==>
              exists i :: 0 <= i < |rules| && rules[i] == m.value && Matches(rules[i], fingerprint, ruleId, locator)
                          && forall j :: 0 <= j < i ==> !Matches(rules[j], fingerprint, ruleId, locator)
  {
    if rules != [] && !Matches(rules[0], fingerprint, ruleId, locator) {
      var rest := rules[1..];
      FirstMatchIs(rest, fingerprint, ruleId, locator);
      assert forall i :: 0 < i < |rules| ==> rules[i] == rest[i - 1];
      var m := FirstMatch(rest, fingerprint, ruleId, locator);
      if m.None? {
        forall i | 0 <= i < |rules| ensures !Matches(rules[i], fingerprint, ruleId, locator) {
          if i > 0 { assert !Matches(rest[i - 1], fingerprint, ruleId, locator); }
        }
      } else {
        var i :| 0 <= i < |rest| && rest[i] == m.value && Matches(rest[i], fingerprint, ruleId, locator)
                 && forall j :: 0 <= j < i ==> !Matches(rest[j], fingerprint, ruleId, locator);
        assert rules[i + 1] == m.value;
        forall j | 0 <= j < i + 1 ensures !Matches(rules[j], fingerprint, ruleId, locator) {
          if j > 0 { assert !Matches(rest[j - 1], fingerprint, ruleId, locator); }
        }
      }
    }
  }

  predicate Hidden(f: Finding) { f.suppressedAt.Some? }

  /** A finding already out of view keeps the moment it left and gets no second event. */
  function Suppress(f: Finding, s: Suppression, at: int, actor: Option<nat>): Finding {
    if Hidden(f) then f.(suppressedBy := Some(s.id))
    else f.(suppressedAt := Some(at), suppressedBy := Some(s.id),
            events := f.events + [Suppressed(actor, s.scope, s.id)])
  }

  function Release(f: Finding, actor: Option<nat>, why: Remark): Finding {
    if !Hidden(f) then f
    else f.(suppressedAt := None, suppressedBy := None, events := f.events + [Comment(actor, why)])
  }

  /** Hidden still, by another suppression, or back in view with the reason. */
  function HandOver(f: Finding, replacement: Option<Suppression>, actor: Option<nat>, why: Remark): Finding {
    if replacement.Some? then f.(suppressedBy := Some(replacement.value.id)) else Release(f, actor, why)
  }

  function CoverFor(rules: seq<Suppression>, f: Finding): Option<Suppression> {
    FirstMatch(rules, f.fingerprint, f.ruleId, f.display.locator)
  }

  // ----- ownership -----

  function Rank(s: Severity): nat {
    match s case Low => 0 case Medium => 1 case High => 2 case Critical => 3
  }

  datatype RoutingRule = RoutingRule(source: Option<nat>, ruleId: Option<string>, minSeverity: Option<Severity>,
                                     tags: set<string>, group: nat)

  /** Routing rules in evaluation order, response targets in time units, and the source's tags. */
  datatype Policy = Policy(rules: seq<RoutingRule>, targets: map<Severity, nat>, tags: set<string>)

  predicate Claims(rule: RoutingRule, f: Finding, tags: set<string>) {
    && (rule.source.None? || rule.source.value == f.source)
    && (rule.ruleId.None? || rule.ruleId.value == f.ruleId)
    && (rule.minSeverity.None? || Rank(rule.minSeverity.value) <= Rank(f.display.severity))
    && rule.tags <= tags
  }

  function FirstClaim(rules: seq<RoutingRule>, f: Finding, tags: set<string>): Option<nat> {
    if rules == [] then None
    else if Claims(rules[0], f, tags) then Some(rules[0].group)
    else FirstClaim(rules[1..], f, tags)
  }

  function SetOwner(f: Finding, actor: Option<nat>, group: Option<nat>): Finding {
    f.(standing := f.standing.(owner := group, pinned := f.standing.pinned || actor.Some?),
       events := f.events + [OwnerSet(actor, f.standing.owner, group)])
  }

  function Route(f: Finding, policy: Policy): Finding {
    if f.standing.pinned || f.standing.owner.Some? then f
    else
      var group := FirstClaim(policy.rules, f, policy.tags);
      if group.None? then f else SetOwner(f, None, group)
  }

  function StartClock(f: Finding, policy: Policy, at: int, restart: bool): Finding {
    if f.dueAt.Some? && !restart then f
    else if f.display.severity !in policy.targets then f
    else f.(dueAt := Some(at + policy.targets[f.display.severity]))
  }

  // ----- triage -----

  /** Every road between judgements leads through open. */
  function LegalTransitions(from: State): set<State> {
    if from == Open then {FalsePositive, AcceptedRisk, Resolved} else {Open}
  }

  /** A patch: an absent field is left alone, and a present one may hold null. */
  datatype Patch = Patch(state: Option<State>, assignee: Option<Option<nat>>, owner: Option<Option<nat>>,
                         notes: Option<Option<string>>)

  datatype Refusal = IllegalTransition | EvidenceRequired

  function MovingTo(f: Finding, p: Patch): Option<State> {
    if p.state == Some(f.standing.state) then None else p.state
  }

  /** `evidence` is the required-evidence policy's answer, when there is such a policy. */
  function Refused(f: Finding, p: Patch, evidence: Option<bool>): Option<Refusal> {
    var to := MovingTo(f, p);
    if to.Some? && to.value !in LegalTransitions(f.standing.state) then Some(IllegalTransition)
    else if to == Some(Resolved) && evidence == Some(false) then Some(EvidenceRequired)
    else None
  }

  function Transition(f: Finding, to: State, actor: Option<nat>): Finding {
    var how := if actor.Some? then Manual else Auto;
    f.(standing := f.standing.(state := to, resolution := if to == Resolved then Some(how) else None),
       events := f.events + [if to == Open then Reopened(actor, f.standing.state, to)
                             else StateChange(actor, f.standing.state, to)])
  }

  function Assign(f: Finding, assignee: Option<nat>, actor: nat): Finding {
    f.(standing := f.standing.(assignee := assignee),
       events := f.events + [Assigned(Some(actor), f.standing.assignee, assignee)])
  }

  function Own(f: Finding, group: Option<nat>, actor: nat): Finding {
    if f.standing.owner == group && f.standing.pinned then f else SetOwner(f, Some(actor), group)
  }

  function Annotate(f: Finding, notes: Option<string>, actor: nat): Finding {
    f.(notes := notes, events := f.events + [Comment(Some(actor), Note(notes))])
  }

  function Patched(f: Finding, p: Patch, actor: nat): Finding {
    var to := MovingTo(f, p);
    var moved := if to.Some? then Transition(f, to.value, Some(actor)) else f;
    var given := if p.assignee.Some? && p.assignee.value != moved.standing.assignee
                    then Assign(moved, p.assignee.value, actor) else moved;
    var owned := if p.owner.Some? then Own(given, p.owner.value, actor) else given;
    if p.notes.Some? && p.notes.value != owned.notes then Annotate(owned, p.notes.value, actor) else owned
  }

  // ----- sightings -----

  datatype Payload = Payload(fingerprint: string, ruleId: string, display: Display, secretHash: string,
                             validation: Option<Validation>, previousFingerprint: Option<string>,
                             previousSecretHash: Option<string>)

  /** What one submission is ingested under; `correlate` derives a correlation id when a key is configured. */
  datatype Context = Context(source: nat, scan: nat, at: int, rules: seq<Suppression>, policy: Policy,
                             correlate: Option<string -> string>)

  function Correlated(ctx: Context, secretHash: string): Option<string> {
    if ctx.correlate.None? then None else Some(ctx.correlate.value(secretHash))
  }

  function RecordValidation(f: Finding, p: Payload): Finding {
    if p.validation.None? then f
    else
      f.(validation := p.validation,
         events := f.events + [Validated(if f.validation.None? then None else Some(f.validation.value.status),
                                         p.validation.value.status)])
  }

  function PayloadCover(ctx: Context, p: Payload): Option<Suppression> {
    FirstMatch(ctx.rules, p.fingerprint, p.ruleId, p.display.locator)
  }

  function NewRow(p: Payload, ctx: Context, createdAt: int): Finding {
    Finding(ctx.source, createdAt, p.fingerprint, p.ruleId, p.secretHash, Correlated(ctx, p.secretHash), p.display,
            Standing(Open, None, None, false, None), None, None, None, ctx.scan, None, None, [])
  }

  function Created(p: Payload, ctx: Context, createdAt: int): Finding {
    var f := RecordValidation(NewRow(p, ctx, createdAt), p);
    var clocked := StartClock(Route(f, ctx.policy), ctx.policy, ctx.at, false);
    var cover := PayloadCover(ctx, p);
    if cover.Some? then Suppress(clocked, cover.value, ctx.at, None) else clocked
  }

  /** Display fields and a changed validation verdict are taken over; identity is not. */
  function Redisplayed(f: Finding, p: Payload, ctx: Context): Finding {
    var shown := f.(lastSeen := ctx.scan, display := p.display,
                    correlation := if f.correlation.None? then Correlated(ctx, f.secretHash) else f.correlation);
    if p.validation == f.validation then shown else RecordValidation(shown, p)
  }

  function Reopen(f: Finding): Finding {
    if f.standing.state == Resolved then Transition(f, Open, None) else f
  }

  /** A suppression that appeared since the last sighting applies now, and one that ended stops. */
  function Settled(f: Finding, cover: Option<Suppression>, ctx: Context): Finding {
    if cover.Some? then Suppress(f, cover.value, ctx.at, None)
    else Release(f, None, NothingMatched(ctx.scan))
  }

  function Refreshed(f: Finding, p: Payload, ctx: Context): Finding {
    var routed := Route(Reopen(Redisplayed(f, p, ctx)), ctx.policy);
    var clocked := StartClock(routed, ctx.policy, ctx.at, f.standing.state == Resolved);
    Settled(clocked, PayloadCover(ctx, p), ctx)
  }

  function Rekeyed(f: Finding, p: Payload, ctx: Context): Finding {
    f.(fingerprint := p.fingerprint, secretHash := p.secretHash, correlation := Correlated(ctx, p.secretHash))
  }

  predicate SameSecret(f: Finding, p: Payload) {
    p.previousSecretHash.None? || p.previousSecretHash.value == f.secretHash
  }

  // ----- reconciliation -----

  /** Whether a completed scan of `source` that fetched something may infer absence of `f`. */
  predicate Missing(f: Finding, source: nat, scan: nat) {
    f.source == source && f.standing.state == Open && f.lastSeen != scan && !Hidden(f)
  }

  function AutoResolved(f: Finding, source: nat, scan: nat): Finding {
    if Missing(f, source, scan) then Transition(f, Resolved, None) else f
  }
}
