/**
 Storing a submission's findings. The batch is ingested through a map that is loaded once and
 kept in step; the reference asks the table again for every payload.
 */
module Ingest {
  import opened Basics
  import opened Findings
  import opened Trail

  /** The identity a newly inserted row would get. */
  datatype Stamp = Stamp(id: nat, createdAt: int)

  datatype Tally = Tally(ingested: nat, suppressed: nat, reopened: nat, rekeyed: nat, fingerprints: seq<string>)
  datatype Ingested = Ingested(rows: Table, tally: Tally)

  predicate Named(f: Finding, source: nat, fingerprint: string) {
    f.source == source && f.fingerprint == fingerprint
  }

  predicate HasRow(rows: Table, source: nat, fingerprint: string) {
    exists id :: id in rows && Named(rows[id], source, fingerprint)
  }

  /** The table's constraint: one row per source and fingerprint. */
  ghost predicate UniqueFingerprints(rows: Table) {
    forall a, b :: a in rows && b in rows && a != b ==> !Named(rows[a], rows[b].source, rows[b].fingerprint)
  }

  /** The select a per-payload lookup would issue. */
  ghost function Lookup(rows: Table, source: nat, fingerprint: string): Option<nat> {
    if HasRow(rows, source, fingerprint) then
      var id :| id in rows && Named(rows[id], source, fingerprint);
      Some(id)
    else None
  }

  /** `found` is a correct answer to the select. */
  predicate Answers(rows: Table, source: nat, fingerprint: string, found: Option<nat>) {
    if found.None? then !HasRow(rows, source, fingerprint)
    else found.value in rows && Named(rows[found.value], source, fingerprint)
  }

  lemma AnswerIsLookup(rows: Table, source: nat, fingerprint: string, found: Option<nat>)
    requires UniqueFingerprints(rows) && Answers(rows, source, fingerprint, found)
    ensures Lookup(rows, source, fingerprint) == found
  {
  }

  // ----- one payload at a time -----

  datatype Target = Fresh | Seen(id: nat) | Moved(id: nat)

  predicate HasPrevious(p: Payload) {
    p.previousFingerprint.Some? && p.previousFingerprint.value != ""
  }

  /** Which row a payload is about: its own, the one it had under the outgoing pepper, or a new one. */
  function TargetFrom(rows: Table, p: Payload, own: Option<nat>, previous: Option<nat>): Target
    requires previous.Some? ==> previous.value in rows
  {
    if own.Some? then Seen(own.value)
    else if previous.Some? && SameSecret(rows[previous.value], p) then Moved(previous.value)
    else Fresh
  }

  ghost function TargetOf(rows: Table, p: Payload, source: nat): Target {
    TargetFrom(rows, p, Lookup(rows, source, p.fingerprint),
               if HasPrevious(p) then Lookup(rows, source, p.previousFingerprint.value) else None)
  }

  predicate Exists(rows: Table, target: Target) {
    target == Fresh || target.id in rows
  }

  function TargetId(target: Target, stamp: Stamp): nat {
    if target == Fresh then stamp.id else target.id
  }

  function Written(rows: Table, p: Payload, ctx: Context, stamp: Stamp, target: Target): Finding
    requires Exists(rows, target)
  {
    match target
    case Fresh => Created(p, ctx, stamp.createdAt)
    case Seen(id) => Refreshed(rows[id], p, ctx)
    case Moved(id) => Refreshed(Rekeyed(rows[id], p, ctx), p, ctx)
  }

  function Store(rows: Table, p: Payload, ctx: Context, stamp: Stamp, target: Target): Table
    requires Exists(rows, target)
  {
    rows[TargetId(target, stamp) := Written(rows, p, ctx, stamp, target)]
  }

  function Counted(t: Tally, rows: Table, p: Payload, ctx: Context, target: Target): Tally
    requires Exists(rows, target)
  {
    Tally(t.ingested + 1,
          if PayloadCover(ctx, p).Some? then t.suppressed + 1 else t.suppressed,
          if target != Fresh && rows[target.id].standing.state == Resolved then t.reopened + 1 else t.reopened,
          if target.Moved? then t.rekeyed + 1 else t.rekeyed,
          t.fingerprints + [p.fingerprint])
  }

  ghost function IngestOne(state: Ingested, p: Payload, ctx: Context, stamp: Stamp): Ingested {
    var target := TargetOf(state.rows, p, ctx.source);
    Ingested(Store(state.rows, p, ctx, stamp, target), Counted(state.tally, state.rows, p, ctx, target))
  }

  /** The reference: every payload looked up in the table as the payloads before it left it. */
  ghost function IngestEach(start: Table, ps: seq<Payload>, ctx: Context, stamps: seq<Stamp>): Ingested
    requires |ps| <= |stamps|
  {
    if ps == [] then Ingested(start, Tally(0, 0, 0, 0, []))
    else IngestOne(IngestEach(start, ps[..|ps| - 1], ctx, stamps), ps[|ps| - 1], ctx, stamps[|ps| - 1])
  }

  /** New rows get ids nothing in the table has. */
  ghost predicate FreshStamps(stamps: seq<Stamp>, rows: Table) {
    && (forall i :: 0 <= i < |stamps| ==> stamps[i].id !in rows)
    && (forall i, j :: 0 <= i < j < |stamps| ==> stamps[i].id != stamps[j].id)
  }

  // ----- identity -----

  predicate SameIdentity(f: Finding, g: Finding) {
    && f.source == g.source && f.fingerprint == g.fingerprint && f.ruleId == g.ruleId
    && f.secretHash == g.secretHash && f.createdAt == g.createdAt
  }

  lemma RoutedIdentity(f: Finding, policy: Policy, at: int, restart: bool)
    ensures SameIdentity(f, StartClock(Route(f, policy), policy, at, restart))
  {
    assert SameIdentity(f, Route(f, policy));
  }

  lemma RedisplayedIdentity(f: Finding, p: Payload, ctx: Context)
    ensures SameIdentity(f, Redisplayed(f, p, ctx))
  {
  }

  lemma ReopenIdentity(f: Finding)
    ensures SameIdentity(f, Reopen(f))
  {
  }

  lemma SettledIdentity(f: Finding, cover: Option<Suppression>, ctx: Context)
    ensures SameIdentity(f, Settled(f, cover, ctx))
  {
  }

  lemma RefreshKeepsIdentity(f: Finding, p: Payload, ctx: Context)
    ensures SameIdentity(f, Refreshed(f, p, ctx))
  {
    var restart := f.standing.state == Resolved;
    var shown := Redisplayed(f, p, ctx);
    var open := Reopen(shown);
    RedisplayedIdentity(f, p, ctx);
    ReopenIdentity(shown);
    RoutedIdentity(open, ctx.policy, ctx.at, restart);
    SettledIdentity(StartClock(Route(open, ctx.policy), ctx.policy, ctx.at, restart), PayloadCover(ctx, p), ctx);
  }

  lemma CreatedIdentity(p: Payload, ctx: Context, createdAt: int)
    ensures SameIdentity(NewRow(p, ctx, createdAt), Created(p, ctx, createdAt))
  {
    var f := RecordValidation(NewRow(p, ctx, createdAt), p);
    assert SameIdentity(f, Route(f, ctx.policy));
  }

  /** Whatever the target, the row written answers to the payload's fingerprint and no other row does. */
  lemma WrittenIsNamed(rows: Table, p: Payload, ctx: Context, stamp: Stamp)
    requires UniqueFingerprints(rows)
    ensures var target := TargetOf(rows, p, ctx.source);
            && Named(Written(rows, p, ctx, stamp, target), ctx.source, p.fingerprint)
            && forall id :: id in rows && id != TargetId(target, stamp) ==> !Named(rows[id], ctx.source, p.fingerprint)
  {
    match TargetOf(rows, p, ctx.source)
    case Fresh => CreatedIdentity(p, ctx, stamp.createdAt);
    case Seen(id) => RefreshKeepsIdentity(rows[id], p, ctx);
    case Moved(id) => RefreshKeepsIdentity(Rekeyed(rows[id], p, ctx), p, ctx);
  }

  lemma PutKeepsUnique(rows: Table, id: nat, f: Finding)
    requires UniqueFingerprints(rows)
    requires forall j :: j in rows && j != id ==> !Named(rows[j], f.source, f.fingerprint)
    ensures UniqueFingerprints(rows[id := f])
  {
  }

  lemma OneKeepsUnique(state: Ingested, p: Payload, ctx: Context, stamp: Stamp)
    requires UniqueFingerprints(state.rows)
    ensures UniqueFingerprints(IngestOne(state, p, ctx, stamp).rows)
  {
    var target := TargetOf(state.rows, p, ctx.source);
    WrittenIsNamed(state.rows, p, ctx, stamp);
    PutKeepsUnique(state.rows, TargetId(target, stamp), Written(state.rows, p, ctx, stamp, target));
  }

  /** Fingerprints stay unique per source through every batch. */
  lemma {:induction false} IngestKeepsUnique(start: Table, ps: seq<Payload>, ctx: Context, stamps: seq<Stamp>)
    requires UniqueFingerprints(start) && |ps| <= |stamps|
    ensures UniqueFingerprints(IngestEach(start, ps, ctx, stamps).rows)
  {
    if ps != [] {
      IngestKeepsUnique(start, ps[..|ps| - 1], ctx, stamps);
      OneKeepsUnique(IngestEach(start, ps[..|ps| - 1], ctx, stamps), ps[|ps| - 1], ctx, stamps[|ps| - 1]);
    }
  }

  // ----- the live map -----

  function Get(known: map<string, nat>, fingerprint: string): Option<nat> {
    if fingerprint in known then Some(known[fingerprint]) else None
  }

  /** The map answers for every identity in `wanted` what the table would. */
  ghost predicate InStep(known: map<string, nat>, rows: Table, source: nat, wanted: set<string>) {
    forall fp :: fp in wanted ==> Answers(rows, source, fp, Get(known, fp))
  }

  ghost predicate Pointing(known: map<string, nat>, rows: Table) {
    forall fp :: fp in known ==> known[fp] in rows
  }

  function Identities(p: Payload): set<string> {
    if HasPrevious(p) then {p.fingerprint, p.previousFingerprint.value} else {p.fingerprint}
  }

  function Wanted(ps: seq<Payload>): set<string> {
    if ps == [] then {} else Wanted(ps[..|ps| - 1]) + Identities(ps[|ps| - 1])
  }

  lemma {:induction false} WantedEach(ps: seq<Payload>, n: nat)
    requires n < |ps|
    ensures Identities(ps[n]) <= Wanted(ps)
  {
    if n < |ps| - 1 {
      WantedEach(ps[..|ps| - 1], n);
    }
  }

  /** Writing the row of `fp` and dropping the identity it left keeps the map in step. */
  lemma PutKeepsStep(known: map<string, nat>, after: map<string, nat>, rows: Table, source: nat, wanted: set<string>,
                     id: nat, f: Finding, left: string)
    requires UniqueFingerprints(rows) && InStep(known, rows, source, wanted)
    requires f.source == source
    requires id in rows ==>
             rows[id].source == source && (rows[id].fingerprint == f.fingerprint || rows[id].fingerprint == left)
    requires forall j :: j in rows && j != id ==> !Named(rows[j], source, f.fingerprint)
    requires left != f.fingerprint ==> id in rows && rows[id].fingerprint == left
    requires forall q :: Get(after, q) ==
                         if q == f.fingerprint then Some(id) else if q == left then None else Get(known, q)
    ensures InStep(after, rows[id := f], source, wanted)
  {
    var now := rows[id := f];
    forall q | q in wanted ensures Answers(now, source, q, Get(after, q)) {
      assert now[id] == f;
      if q != f.fingerprint && q != left {
        StaysAnswered(rows, source, q, Get(known, q), id, f);
      } else if q == left && q != f.fingerprint {
        forall j | j in now ensures !Named(now[j], source, q) {
          if j != id {
            assert !Named(rows[j], rows[id].source, rows[id].fingerprint);
          }
        }
      }
    }
  }

  lemma StaysAnswered(rows: Table, source: nat, q: string, found: Option<nat>, id: nat, f: Finding)
    requires Answers(rows, source, q, found) && f.fingerprint != q
    requires id in rows ==> rows[id].fingerprint != q
    ensures Answers(rows[id := f], source, q, found)
  {
    var now := rows[id := f];
    forall j | j in now && Named(now[j], source, q) ensures found.Some? {
      assert j != id && Named(rows[j], source, q);
    }
  }

  const LOOKUP_CHUNK: nat := 500

  method Enumerate(wanted: set<string>) returns (listed: seq<string>)
    ensures forall fp :: fp in listed <==> fp in wanted
  {
    listed := [];
    var todo := wanted;
    while todo != {}
      invariant forall fp :: fp in wanted <==> fp in listed || fp in todo
      decreases |todo|
    {
      var fp :| fp in todo;
      todo := todo - {fp};
      listed := listed + [fp];
    }
  }

  /** Every loaded entry is a row of that name, and every row named in `done` is loaded. */
  ghost predicate Loaded(known: map<string, nat>, rows: Table, source: nat, done: seq<string>) {
    && (forall fp :: fp in known ==> known[fp] in rows && Named(rows[known[fp]], source, fp))
    && (forall id :: id in rows && rows[id].source == source && rows[id].fingerprint in done ==>
          rows[id].fingerprint in known)
  }

  /** One `IN (...)` round trip. */
  method LoadChunk(before: map<string, nat>, rows: Table, source: nat, ghost done: seq<string>, chunk: seq<string>)
    returns (known: map<string, nat>)
    requires Loaded(before, rows, source, done)
    ensures Loaded(known, rows, source, done + chunk)
  {
    known := before;
    var hits := set id | id in rows && rows[id].source == source && rows[id].fingerprint in chunk;
    var todo := hits;
    while todo != {}
      invariant todo <= hits && Loaded(known, rows, source, done)
      invariant forall id :: id in hits && id !in todo ==> rows[id].fingerprint in known
      decreases |todo|
    {
      var id :| id in todo;
      todo := todo - {id};
      known := known[rows[id].fingerprint := id];
    }
  }

  /** Loads every stored finding a batch could be about, under either identity. */
  method LoadFindings(rows: Table, source: nat, ps: seq<Payload>) returns (known: map<string, nat>)
    ensures InStep(known, rows, source, Wanted(ps)) && Pointing(known, rows)
  {
    var listed := Enumerate(Wanted(ps));
    known := map[];
    var start := 0;
    while start < |listed|
      invariant 0 <= start <= |listed| && Loaded(known, rows, source, listed[..start])
    {
      var end := if start + LOOKUP_CHUNK < |listed| then start + LOOKUP_CHUNK else |listed|;
      known := LoadChunk(known, rows, source, listed[..start], listed[start..end]);
      assert listed[..start] + listed[start..end] == listed[..end];
      start := end;
    }
    assert listed[..start] == listed;
    LoadedIsInStep(known, rows, source, listed, Wanted(ps));
  }

  lemma LoadedIsInStep(known: map<string, nat>, rows: Table, source: nat, listed: seq<string>, wanted: set<string>)
    requires Loaded(known, rows, source, listed) && forall fp :: fp in listed <==> fp in wanted
    ensures InStep(known, rows, source, wanted)
  {
    forall fp | fp in wanted ensures Answers(rows, source, fp, Get(known, fp)) {
      if fp !in known {
        forall id | id in rows ensures !Named(rows[id], source, fp) {
          assert fp in listed;
        }
      }
    }
  }

  // ----- the batch -----

  /** An unscored finding is kept. */
  function Scored(ps: seq<Payload>, threshold: real): seq<Payload> {
    if ps == [] then []
    else
      var rest, last := Scored(ps[..|ps| - 1], threshold), ps[|ps| - 1];
      if last.display.confidence.None? || last.display.confidence.value >= threshold then rest + [last] else rest
  }

  /** With the map in step, asking it is asking the table. */
  lemma MapAnswersTable(known: map<string, nat>, rows: Table, p: Payload, source: nat, wanted: set<string>)
    requires UniqueFingerprints(rows) && InStep(known, rows, source, wanted) && Identities(p) <= wanted
    ensures Lookup(rows, source, p.fingerprint) == Get(known, p.fingerprint)
    ensures HasPrevious(p) ==>
              Lookup(rows, source, p.previousFingerprint.value) == Get(known, p.previousFingerprint.value)
  {
    AnswerIsLookup(rows, source, p.fingerprint, Get(known, p.fingerprint));
    if HasPrevious(p) {
      AnswerIsLookup(rows, source, p.previousFingerprint.value, Get(known, p.previousFingerprint.value));
    }
  }

  function KnownAfter(known: map<string, nat>, p: Payload, target: Target, stamp: Stamp): map<string, nat> {
    match target
    case Fresh => known[p.fingerprint := stamp.id]
    case Seen(_) => known
    case Moved(id) => (if HasPrevious(p) then known - {p.previousFingerprint.value} else known)[p.fingerprint := id]
  }

  lemma StepKeepsStep(known: map<string, nat>, rows: Table, p: Payload, ctx: Context, stamp: Stamp, wanted: set<string>)
    requires UniqueFingerprints(rows) && InStep(known, rows, ctx.source, wanted) && Identities(p) <= wanted
    requires stamp.id !in rows
    ensures var target := TargetOf(rows, p, ctx.source);
            InStep(KnownAfter(known, p, target, stamp), Store(rows, p, ctx, stamp, target), ctx.source, wanted)
  {
    var target := TargetOf(rows, p, ctx.source);
    MapAnswersTable(known, rows, p, ctx.source, wanted);
    WrittenIsNamed(rows, p, ctx, stamp);
    var left := if target.Moved? then p.previousFingerprint.value else p.fingerprint;
    PutKeepsStep(known, KnownAfter(known, p, target, stamp), rows, ctx.source, wanted, TargetId(target, stamp),
                 Written(rows, p, ctx, stamp, target), left);
  }

  lemma OneAddsAtMostStamp(state: Ingested, p: Payload, ctx: Context, stamp: Stamp)
    ensures IngestOne(state, p, ctx, stamp).rows.Keys <= state.rows.Keys + {stamp.id}
    ensures state.rows.Keys <= IngestOne(state, p, ctx, stamp).rows.Keys
  {
  }

  lemma {:induction false} LaterStampsStayFresh(start: Table, ps: seq<Payload>, ctx: Context, stamps: seq<Stamp>,
                                                n: nat)
    requires FreshStamps(stamps, start) && |ps| <= n < |stamps|
    ensures stamps[n].id !in IngestEach(start, ps, ctx, stamps).rows
  {
    if ps != [] {
      var k := |ps| - 1;
      LaterStampsStayFresh(start, ps[..k], ctx, stamps, n);
      OneAddsAtMostStamp(IngestEach(start, ps[..k], ctx, stamps), ps[k], ctx, stamps[k]);
    }
  }

  lemma IngestEachStep(start: Table, ps: seq<Payload>, ctx: Context, stamps: seq<Stamp>, n: nat)
    requires n < |ps| <= |stamps|
    ensures IngestEach(start, ps[..n + 1], ctx, stamps) ==
            IngestOne(IngestEach(start, ps[..n], ctx, stamps), ps[n], ctx, stamps[n])
  {
    assert ps[..n + 1][..n] == ps[..n];
  }

  function KnownTarget(known: map<string, nat>, rows: Table, p: Payload): Target
    requires Pointing(known, rows)
  {
    TargetFrom(rows, p, Get(known, p.fingerprint),
               if HasPrevious(p) then Get(known, p.previousFingerprint.value) else None)
  }

  /** One turn of the ingest loop. */
  method IngestNext(state: Ingested, known: map<string, nat>, p: Payload, ctx: Context, stamp: Stamp,
                    ghost wanted: set<string>)
    returns (next: Ingested, after: map<string, nat>)
    requires UniqueFingerprints(state.rows) && InStep(known, state.rows, ctx.source, wanted) && Identities(p) <= wanted
    requires stamp.id !in state.rows && Pointing(known, state.rows)
    ensures next == IngestOne(state, p, ctx, stamp) && UniqueFingerprints(next.rows)
    ensures InStep(after, next.rows, ctx.source, wanted) && Pointing(after, next.rows)
  {
    MapAnswersTable(known, state.rows, p, ctx.source, wanted);
    StepKeepsStep(known, state.rows, p, ctx, stamp, wanted);
    OneKeepsUnique(state, p, ctx, stamp);
    var target := KnownTarget(known, state.rows, p);
    next := Ingested(Store(state.rows, p, ctx, stamp, target), Counted(state.tally, state.rows, p, ctx, target));
    after := KnownAfter(known, p, target, stamp);
  }

  /**
   Batch ingest. With one load up front and a map kept in step it leaves the table and the
   tallies exactly as looking every payload up would, repeats, re-keys and refused re-keys
   included.
   */
  method IngestFindings(start: Table, payloads: seq<Payload>, ctx: Context, stamps: seq<Stamp>, threshold: real)
    returns (result: Ingested, belowThreshold: int)
    requires UniqueFingerprints(start) && FreshStamps(stamps, start)
    requires |Scored(payloads, threshold)| <= |stamps|
    ensures result == IngestEach(start, Scored(payloads, threshold), ctx, stamps)
    ensures belowThreshold == |payloads| - |Scored(payloads, threshold)|
  {
    var scored := Scored(payloads, threshold);
    belowThreshold := |payloads| - |scored|;
    result := Ingested(start, Tally(0, 0, 0, 0, []));
    var known := LoadFindings(start, ctx.source, scored);
    for n := 0 to |scored|
      invariant result == IngestEach(start, scored[..n], ctx, stamps)
      invariant UniqueFingerprints(result.rows) && Pointing(known, result.rows)
      invariant InStep(known, result.rows, ctx.source, Wanted(scored))
    {
      WantedEach(scored, n);
      LaterStampsStayFresh(start, scored[..n], ctx, stamps, n);
      IngestEachStep(start, scored, ctx, stamps, n);
      result, known := IngestNext(result, known, scored[n], ctx, stamps[n], Wanted(scored));
    }
    assert scored[..|scored|] == scored;
  }

  // ----- what a batch does to the rows it finds -----

  /** Nothing is lost: every row keeps its place, its rule and its source, and a prefix of its trail. */
  predicate Continues(f: Finding, g: Finding) {
    && f.source == g.source && f.ruleId == g.ruleId && f.createdAt == g.createdAt
    && (f.standing.state == g.standing.state || (f.standing.state == Resolved && g.standing.state == Open))
    && f.standing.pinned == g.standing.pinned && f.standing.assignee == g.standing.assignee
    && (f.standing.pinned || f.standing.owner.Some? ==> g.standing.owner == f.standing.owner)
  }

  lemma OneContinues(state: Ingested, p: Payload, ctx: Context, stamp: Stamp, id: nat)
    requires id in state.rows && stamp.id !in state.rows && Traced(state.rows[id])
    ensures id in IngestOne(state, p, ctx, stamp).rows
    ensures Continues(state.rows[id], IngestOne(state, p, ctx, stamp).rows[id])
    ensures Traced(IngestOne(state, p, ctx, stamp).rows[id])
  {
    var target := TargetOf(state.rows, p, ctx.source);
    if TargetId(target, stamp) == id {
      var f := if target.Moved? then Rekeyed(state.rows[id], p, ctx) else state.rows[id];
      RefreshKeepsIdentity(f, p, ctx);
      RefreshedTraces(f, p, ctx);
    }
  }

  /**
   Through a whole batch a stored finding keeps its history: a judgement is never overwritten,
   a resolution only gives way to open, and an owner that is set or pinned is not moved.
   */
  lemma {:induction false} BatchContinues(start: Table, ps: seq<Payload>, ctx: Context, stamps: seq<Stamp>, id: nat)
    requires |ps| <= |stamps| && FreshStamps(stamps, start) && id in start && Traced(start[id])
    ensures var rows := IngestEach(start, ps, ctx, stamps).rows;
            id in rows && Traced(rows[id]) && Continues(start[id], rows[id])
  {
    if ps != [] {
      var k := |ps| - 1;
      BatchContinues(start, ps[..k], ctx, stamps, id);
      LaterStampsStayFresh(start, ps[..k], ctx, stamps, k);
      OneContinues(IngestEach(start, ps[..k], ctx, stamps), ps[k], ctx, stamps[k], id);
    }
  }

  /** A refused re-key leaves the old row alone and stores the payload as a finding nobody has seen. */
  lemma RefusedRekeyStoresApart(state: Ingested, p: Payload, ctx: Context, stamp: Stamp, id: nat)
    requires UniqueFingerprints(state.rows) && stamp.id !in state.rows
    requires HasPrevious(p) && !HasRow(state.rows, ctx.source, p.fingerprint)
    requires Answers(state.rows, ctx.source, p.previousFingerprint.value, Some(id)) && !SameSecret(state.rows[id], p)
    ensures var rows := IngestOne(state, p, ctx, stamp).rows;
            && rows == state.rows[stamp.id := Created(p, ctx, stamp.createdAt)]
            && rows[id] == state.rows[id]
            && IngestOne(state, p, ctx, stamp).tally.rekeyed == state.tally.rekeyed
  {
    AnswerIsLookup(state.rows, ctx.source, p.previousFingerprint.value, Some(id));
  }

  /** Reporting the same payload again finds the row the first report left: nothing new, no second reopen or re-key. */
  lemma RepeatFindsTheRow(state: Ingested, p: Payload, ctx: Context, stamp: Stamp, again: Stamp)
    requires UniqueFingerprints(state.rows) && stamp.id !in state.rows
    ensures var once := IngestOne(state, p, ctx, stamp);
            var twice := IngestOne(once, p, ctx, again);
            && twice.rows.Keys == once.rows.Keys
            && twice.tally.reopened == once.tally.reopened && twice.tally.rekeyed == once.tally.rekeyed
  {
    var target := TargetOf(state.rows, p, ctx.source);
    var once := IngestOne(state, p, ctx, stamp);
    WrittenIsNamed(state.rows, p, ctx, stamp);
    OneKeepsUnique(state, p, ctx, stamp);
    var id := TargetId(target, stamp);
    AnswerIsLookup(once.rows, ctx.source, p.fingerprint, Some(id));
    WrittenIsOpen(state.rows, p, ctx, stamp, target);
  }

  lemma RoutedState(f: Finding, policy: Policy, at: int, restart: bool)
    ensures StartClock(Route(f, policy), policy, at, restart).standing.state == f.standing.state
  {
    assert Route(f, policy).standing.state == f.standing.state;
  }

  lemma RefreshedIsNotResolved(f: Finding, p: Payload, ctx: Context)
    ensures Refreshed(f, p, ctx).standing.state != Resolved
  {
    var restart := f.standing.state == Resolved;
    var open := Reopen(Redisplayed(f, p, ctx));
    RoutedState(open, ctx.policy, ctx.at, restart);
    var clocked := StartClock(Route(open, ctx.policy), ctx.policy, ctx.at, restart);
    assert Settled(clocked, PayloadCover(ctx, p), ctx).standing == clocked.standing;
  }

  lemma WrittenIsOpen(rows: Table, p: Payload, ctx: Context, stamp: Stamp, target: Target)
    requires Exists(rows, target)
    ensures Written(rows, p, ctx, stamp, target).standing.state != Resolved
  {
    match target
    case Fresh => RoutedState(RecordValidation(NewRow(p, ctx, stamp.createdAt), p), ctx.policy, ctx.at, false);
    case Seen(id) => RefreshedIsNotResolved(rows[id], p, ctx);
    case Moved(id) => RefreshedIsNotResolved(Rekeyed(rows[id], p, ctx), p, ctx);
  }
}
