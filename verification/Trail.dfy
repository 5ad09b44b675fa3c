/**
 The audit trail. Replaying a finding's events reproduces what has been decided about it, and
 every event tells the truth about the moment it was written.
 */
module Trail {
  import opened Basics
  import opened Findings

  function Initial(): Standing {
    Standing(Open, None, None, false, None)
  }

  /** The standing an event leaves behind. */
  function After(s: Standing, e: Event): Standing {
    match e
    case StateChange(actor, _, to) =>
      s.(state := to, resolution := if to != Resolved then None else if actor.Some? then Some(Manual) else Some(Auto))
    case Reopened(_, _, to) => s.(state := to, resolution := None)
    case OwnerSet(actor, _, group) => s.(owner := group, pinned := s.pinned || actor.Some?)
    case Assigned(_, _, assignee) => s.(assignee := assignee)
    case _ => s
  }

  function Replay(events: seq<Event>): Standing {
    if events == [] then Initial() else After(Replay(events[..|events| - 1]), events[|events| - 1])
  }

  /** The event is one that could be recorded of this standing, with true old values. */
  predicate TrueOf(e: Event, s: Standing) {
    match e
    case StateChange(_, from, to) => from == s.state == Open && to != Open
    case Reopened(_, from, to) => from == s.state != Open && to == Open
    case OwnerSet(actor, previous, group) =>
      previous == s.owner && (actor.None? ==> !s.pinned && s.owner.None? && group.Some?)
    case Assigned(actor, previous, assignee) => actor.Some? && previous == s.assignee != assignee
    case _ => true
  }

  predicate Truthful(events: seq<Event>) {
    events == [] ||
    (Truthful(events[..|events| - 1]) && TrueOf(events[|events| - 1], Replay(events[..|events| - 1])))
  }

  /** The row and its trail agree. */
  predicate Traced(f: Finding) {
    Truthful(f.events) && Replay(f.events) == f.standing
  }

  lemma AppendTraces(f: Finding, g: Finding, e: Event)
    requires Traced(f) && g.events == f.events + [e]
    requires TrueOf(e, f.standing) && g.standing == After(f.standing, e)
    ensures Traced(g)
  {
    assert g.events[..|g.events| - 1] == f.events;
  }

  lemma TransitionTraces(f: Finding, to: State, actor: Option<nat>)
    requires Traced(f) && to in LegalTransitions(f.standing.state)
    ensures Traced(Transition(f, to, actor))
  {
    var g := Transition(f, to, actor);
    AppendTraces(f, g, g.events[|f.events|]);
  }

  lemma SetOwnerTraces(f: Finding, actor: Option<nat>, group: Option<nat>)
    requires Traced(f) && (actor.None? ==> !f.standing.pinned && f.standing.owner.None? && group.Some?)
    ensures Traced(SetOwner(f, actor, group))
  {
    AppendTraces(f, SetOwner(f, actor, group), OwnerSet(actor, f.standing.owner, group));
  }

  lemma SuppressTraces(f: Finding, s: Suppression, at: int, actor: Option<nat>)
    requires Traced(f)
    ensures Traced(Suppress(f, s, at, actor)) && Suppress(f, s, at, actor).standing == f.standing
  {
    if !Hidden(f) {
      AppendTraces(f, Suppress(f, s, at, actor), Suppressed(actor, s.scope, s.id));
    }
  }

  lemma ReleaseTraces(f: Finding, actor: Option<nat>, why: Remark)
    requires Traced(f)
    ensures Traced(Release(f, actor, why)) && Release(f, actor, why).standing == f.standing
  {
    if Hidden(f) {
      AppendTraces(f, Release(f, actor, why), Comment(actor, why));
    }
  }

  lemma ValidationTraces(f: Finding, p: Payload)
    requires Traced(f)
    ensures Traced(RecordValidation(f, p)) && RecordValidation(f, p).standing == f.standing
  {
    if p.validation.Some? {
      var g := RecordValidation(f, p);
      AppendTraces(f, g, g.events[|f.events|]);
    }
  }

  lemma RouteTraces(f: Finding, policy: Policy)
    requires Traced(f)
    ensures Traced(Route(f, policy))
    ensures Route(f, policy).standing == f.standing.(owner := Route(f, policy).standing.owner)
    ensures f.standing.pinned || f.standing.owner.Some? ==> Route(f, policy) == f
  {
    if !f.standing.pinned && f.standing.owner.None? && FirstClaim(policy.rules, f, policy.tags).Some? {
      SetOwnerTraces(f, None, FirstClaim(policy.rules, f, policy.tags));
    }
  }

  lemma ReopenTraces(f: Finding)
    requires Traced(f)
    ensures Traced(Reopen(f))
    ensures Reopen(f).standing ==
            f.standing.(state := Reopen(f).standing.state, resolution := Reopen(f).standing.resolution)
    ensures Reopen(f).standing.state == if f.standing.state == Resolved then Open else f.standing.state
  {
    if f.standing.state == Resolved {
      TransitionTraces(f, Open, None);
    }
  }

  lemma CreatedTraces(p: Payload, ctx: Context, createdAt: int)
    ensures Traced(Created(p, ctx, createdAt))
  {
    var row := NewRow(p, ctx, createdAt);
    ValidationTraces(row, p);
    var f := RecordValidation(row, p);
    RouteTraces(f, ctx.policy);
    var clocked := StartClock(Route(f, ctx.policy), ctx.policy, ctx.at, false);
    var cover := PayloadCover(ctx, p);
    if cover.Some? {
      SuppressTraces(clocked, cover.value, ctx.at, None);
    }
  }

  lemma RedisplayedTraces(f: Finding, p: Payload, ctx: Context)
    requires Traced(f)
    ensures Traced(Redisplayed(f, p, ctx)) && Redisplayed(f, p, ctx).standing == f.standing
  {
    var shown := f.(lastSeen := ctx.scan, display := p.display,
                    correlation := if f.correlation.None? then Correlated(ctx, f.secretHash) else f.correlation);
    ValidationTraces(shown, p);
  }

  lemma ClockTraces(f: Finding, policy: Policy, at: int, restart: bool)
    requires Traced(f)
    ensures Traced(StartClock(f, policy, at, restart)) && StartClock(f, policy, at, restart).standing == f.standing
  {
  }

  lemma SettledTraces(f: Finding, cover: Option<Suppression>, ctx: Context)
    requires Traced(f)
    ensures Traced(Settled(f, cover, ctx)) && Settled(f, cover, ctx).standing == f.standing
  {
    if cover.Some? {
      SuppressTraces(f, cover.value, ctx.at, None);
    } else {
      ReleaseTraces(f, None, NothingMatched(ctx.scan));
    }
  }

  /**
   A sighting reopens what was resolved and leaves every judgement alone; it gives an owner
   only to a finding that has none and that nobody has pinned.
   */
  lemma RefreshedTraces(f: Finding, p: Payload, ctx: Context)
    requires Traced(f)
    ensures Traced(Refreshed(f, p, ctx))
    ensures var was, now := f.standing, Refreshed(f, p, ctx).standing;
            && now.state == (if was.state == Resolved then Open else was.state)
            && now.pinned == was.pinned && now.assignee == was.assignee
            && (was.pinned || was.owner.Some? ==> now.owner == was.owner)
  {
    RedisplayedTraces(f, p, ctx);
    var shown := Redisplayed(f, p, ctx);
    ReopenTraces(shown);
    var open := Reopen(shown);
    RouteTraces(open, ctx.policy);
    var routed := Route(open, ctx.policy);
    var clocked := StartClock(routed, ctx.policy, ctx.at, f.standing.state == Resolved);
    ClockTraces(routed, ctx.policy, ctx.at, f.standing.state == Resolved);
    SettledTraces(clocked, PayloadCover(ctx, p), ctx);
  }

  lemma AssignTraces(f: Finding, assignee: Option<nat>, actor: nat)
    requires Traced(f) && assignee != f.standing.assignee
    ensures Traced(Assign(f, assignee, actor))
  {
    AppendTraces(f, Assign(f, assignee, actor), Assigned(Some(actor), f.standing.assignee, assignee));
  }

  lemma OwnTraces(f: Finding, group: Option<nat>, actor: nat)
    requires Traced(f)
    ensures Traced(Own(f, group, actor))
    ensures Own(f, group, actor).standing == f.standing.(owner := group, pinned := true)
  {
    if !(f.standing.owner == group && f.standing.pinned) {
      SetOwnerTraces(f, Some(actor), group);
    }
  }

  lemma AnnotateTraces(f: Finding, notes: Option<string>, actor: nat)
    requires Traced(f)
    ensures Traced(Annotate(f, notes, actor)) && Annotate(f, notes, actor).standing == f.standing
  {
    AppendTraces(f, Annotate(f, notes, actor), Comment(Some(actor), Note(notes)));
  }

  /** An accepted patch sets what it names and nothing else, pins any owner it names, and keeps the trail. */
  lemma PatchedTraces(f: Finding, p: Patch, actor: nat)
    requires Traced(f) && (MovingTo(f, p).Some? ==> MovingTo(f, p).value in LegalTransitions(f.standing.state))
    ensures Traced(Patched(f, p, actor))
    ensures var was, now := f.standing, Patched(f, p, actor).standing;
            && now.state == (if p.state.Some? then p.state.value else was.state)
            && now.assignee == (if p.assignee.Some? then p.assignee.value else was.assignee)
            && now.owner == (if p.owner.Some? then p.owner.value else was.owner)
            && now.pinned == (was.pinned || p.owner.Some?)
  {
    var to := MovingTo(f, p);
    var moved := if to.Some? then Transition(f, to.value, Some(actor)) else f;
    if to.Some? { TransitionTraces(f, to.value, Some(actor)); }
    var given := if p.assignee.Some? && p.assignee.value != moved.standing.assignee
                 then Assign(moved, p.assignee.value, actor) else moved;
    if p.assignee.Some? && p.assignee.value != moved.standing.assignee {
      AssignTraces(moved, p.assignee.value, actor);
    }
    if p.owner.Some? { OwnTraces(given, p.owner.value, actor); }
    var owned := if p.owner.Some? then Own(given, p.owner.value, actor) else given;
    if p.notes.Some? && p.notes.value != owned.notes {
      AnnotateTraces(owned, p.notes.value, actor);
    }
  }

  lemma AutoResolvedTraces(f: Finding, source: nat, scan: nat)
    requires Traced(f)
    ensures Traced(AutoResolved(f, source, scan))
    ensures f.standing.state != Open ==> AutoResolved(f, source, scan) == f
  {
    if Missing(f, source, scan) {
      TransitionTraces(f, Resolved, None);
    }
  }

  // ----- what a truthful trail says -----

  lemma {:induction false} TruthfulPrefix(events: seq<Event>, n: nat)
    requires Truthful(events) && n <= |events|
    ensures Truthful(events[..n])
  {
    if n == |events| {
      assert events[..n] == events;
    } else {
      TruthfulPrefix(events[..|events| - 1], n);
      assert events[..|events| - 1][..n] == events[..n];
    }
  }

  lemma TrueAt(events: seq<Event>, n: nat)
    requires Truthful(events) && n < |events|
    ensures TrueOf(events[n], Replay(events[..n]))
    ensures Replay(events[..n + 1]) == After(Replay(events[..n]), events[n])
  {
    TruthfulPrefix(events, n + 1);
    assert events[..n + 1][..n] == events[..n];
  }

  /** Without a reopen in between, a judged finding stays judged as it is. */
  lemma {:induction false} JudgementStands(events: seq<Event>, i: nat, j: nat)
    requires Truthful(events) && i <= j <= |events|
    requires Replay(events[..i]).state != Open
    requires forall k :: i <= k < j ==> !events[k].Reopened?
    ensures Replay(events[..j]).state == Replay(events[..i]).state
  {
    if i < j {
      JudgementStands(events, i, j - 1);
      TrueAt(events, j - 1);
    }
  }

  /** Two judgements are always separated by a reopen. */
  lemma ReopenBetweenJudgements(events: seq<Event>, i: nat, j: nat)
    requires Truthful(events) && i < j < |events|
    requires events[i].StateChange? && events[j].StateChange?
    ensures exists k :: i < k < j && events[k].Reopened?
  {
    if forall k :: i < k < j ==> !events[k].Reopened? {
      TrueAt(events, i);
      TrueAt(events, j);
      JudgementStands(events, i + 1, j);
    }
  }

  /** A resolution is on record exactly while the finding is resolved, and it says who resolved it. */
  lemma {:induction false} ResolutionExactlyWhenResolved(events: seq<Event>)
    requires Truthful(events)
    ensures Replay(events).resolution.Some? <==> Replay(events).state == Resolved
  {
    if events != [] {
      ResolutionExactlyWhenResolved(events[..|events| - 1]);
    }
  }

  predicate SetByHand(e: Event) {
    e.OwnerSet? && e.actor.Some?
  }

  /** An owner set by hand pins the finding for good. */
  lemma {:induction false} HandPins(events: seq<Event>, k: nat)
    requires k < |events| && SetByHand(events[k])
    ensures Replay(events).pinned
  {
    if k < |events| - 1 {
      HandPins(events[..|events| - 1], k);
    }
  }

  /** And nothing else does. */
  lemma {:induction false} OnlyHandPins(events: seq<Event>) returns (k: nat)
    requires Replay(events).pinned
    ensures k < |events| && SetByHand(events[k])
  {
    k := |events| - 1;
    if Replay(events[..|events| - 1]).pinned {
      k := OnlyHandPins(events[..|events| - 1]);
    }
  }

  /** Once somebody has pinned the owner, no event written by the system moves it. */
  lemma {:induction false} OwnerMovesOnlyByHand(events: seq<Event>, i: nat, j: nat)
    requires Truthful(events) && i <= j <= |events|
    requires Replay(events[..i]).pinned || Replay(events[..i]).owner.Some?
    requires forall k :: i <= k < j && events[k].OwnerSet? ==> events[k].actor.None?
    ensures Replay(events[..j]).owner == Replay(events[..i]).owner
    ensures Replay(events[..j]).pinned == Replay(events[..i]).pinned
  {
    if i < j {
      OwnerMovesOnlyByHand(events, i, j - 1);
      TrueAt(events, j - 1);
    }
  }
}
