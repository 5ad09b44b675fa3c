/**
 Applying a new suppression to stored findings, releasing what a deleted one hid, and returning
 findings whose suppression has lapsed.
 */
module Suppressions {
  import opened Basics
  import opened Findings
  import opened Sweep

  const SWEEP_BATCH: nat := 500

  predicate DistinctIds(all: seq<Suppression>) {
    forall i, j :: 0 <= i < j < |all| ==> all[i].id != all[j].id
  }

  function ById(all: seq<Suppression>, id: nat): Option<Suppression> {
    if all == [] then None
    else if all[|all| - 1].id == id then Some(all[|all| - 1])
    else ById(all[..|all| - 1], id)
  }

  lemma {:induction false} ByIdIs(all: seq<Suppression>, id: nat)
    ensures ById(all, id).None? <==> forall s :: s in all ==> s.id != id
    ensures ById(all, id).Some? ==> ById(all, id).value in all && ById(all, id).value.id == id
  {
    if all != [] {
      ByIdIs(all[..|all| - 1], id);
      assert all == all[..|all| - 1] + [all[|all| - 1]];
    }
  }

  lemma ByIdFinds(all: seq<Suppression>, s: Suppression)
    requires DistinctIds(all) && s in all
    ensures ById(all, s.id) == Some(s)
  {
    ByIdIs(all, s.id);
    SameIdSame(all, s, ById(all, s.id).value);
  }

  lemma SameIdSame(all: seq<Suppression>, s: Suppression, t: Suppression)
    requires DistinctIds(all) && s in all && t in all && s.id == t.id
    ensures s == t
  {
    var i :| 0 <= i < |all| && all[i] == s;
    var j :| 0 <= j < |all| && all[j] == t;
  }

  function Without(all: seq<Suppression>, id: nat): seq<Suppression> {
    if all == [] then []
    else
      var rest, last := Without(all[..|all| - 1], id), all[|all| - 1];
      if last.id == id then rest else rest + [last]
  }

  lemma {:induction false} WithoutIs(all: seq<Suppression>, id: nat, s: Suppression)
    ensures s in Without(all, id) <==> s in all && s.id != id
  {
    if all != [] {
      WithoutIs(all[..|all| - 1], id, s);
      assert all == all[..|all| - 1] + [all[|all| - 1]];
    }
  }

  lemma {:induction false} WithoutStaysDistinct(all: seq<Suppression>, id: nat)
    requires DistinctIds(all)
    ensures DistinctIds(Without(all, id))
  {
    if all != [] {
      var rest, last := all[..|all| - 1], all[|all| - 1];
      WithoutStaysDistinct(rest, id);
      forall i | 0 <= i < |Without(rest, id)| ensures Without(rest, id)[i].id != last.id {
        WithoutIs(rest, id, Without(rest, id)[i]);
        var k :| 0 <= k < |rest| && rest[k] == Without(rest, id)[i];
        assert all[k].id != all[|all| - 1].id;
      }
    }
  }

  // ----- creating -----

  /** What the creating query selects: unhidden findings, narrowed as far as the scope allows. */
  predicate Narrowed(s: Suppression, f: Finding) {
    && !Hidden(f) && AppliesTo(s, f.source)
    && match s.scope
       case ByFingerprint => f.fingerprint == s.pattern
       case ByRule => f.ruleId == s.pattern
       case PathGlob => f.standing.state == Open
  }

  function SuppressIfCovered(f: Finding, s: Suppression, at: int, actor: Option<nat>): Finding {
    if Covers(s, f) then Suppress(f, s, at, actor) else f
  }

  function Creating(s: Suppression, f: Finding, at: int, actor: Option<nat>): Finding {
    if Narrowed(s, f) then SuppressIfCovered(f, s, at, actor) else f
  }

  /**
   Which findings are hidden once a suppression has been created: those that were, and those it
   applies to and covers, except that a path glob leaves findings alone that are not open.
   */
  lemma CreateHidesIff(s: Suppression, f: Finding, at: int, actor: Option<nat>)
    ensures var g := Creating(s, f, at, actor);
            && (Hidden(g) <==> Hidden(f) || (&& AppliesTo(s, f.source) && Covers(s, f)
                                             && (s.scope != PathGlob || f.standing.state == Open)))
            && (Hidden(f) ==> g == f)
            && (Hidden(g) && !Hidden(f) ==> g.suppressedBy == Some(s.id) && g.suppressedAt == Some(at))
            && (!Hidden(g) ==> g == f)
  {
  }

  function Created(rows: Table, s: Suppression, at: int, actor: Option<nat>): Table {
    map id | id in rows :: Creating(s, rows[id], at, actor)
  }

  function Satisfying(ids: seq<nat>, p: nat -> bool): set<nat> {
    set id | id in ids && p(id)
  }

  /** How many of the visited findings satisfy `p`, counted one by one. */
  method CountVisited(rows: Table, visited: seq<nat>, p: nat -> bool) returns (count: nat)
    requires InPlaceOrder(rows, visited)
    ensures count == |Satisfying(visited, p)|
  {
    count := 0;
    ghost var counted: set<nat> := {};
    for n := 0 to |visited|
      invariant counted == Satisfying(visited[..n], p) && count == |counted|
    {
      var id := visited[n];
      assert visited[..n + 1] == visited[..n] + [id];
      assert id !in visited[..n] by {
        assert forall i :: 0 <= i < n ==> Precedes(PlaceOf(rows, visited[i]), PlaceOf(rows, visited[n]));
      }
      if p(id) {
        counted := counted + {id};
        count := count + 1;
      }
    }
    assert visited[..|visited|] == visited;
  }

  /** Create's sweep, in batches, leaves the table as updating every row at once would, and counts what it hid. */
  method ApplyToExisting(rows: Table, s: Suppression, at: int, actor: Option<nat>) returns (after: Table, covered: nat)
    ensures after == Created(rows, s, at, actor)
    ensures covered == |set id | id in rows && !Hidden(rows[id]) && Hidden(after[id])|
  {
    var visited;
    after, visited := InBatches(rows, (f: Finding) => Narrowed(s, f),
                                (f: Finding) => SuppressIfCovered(f, s, at, actor), SWEEP_BATCH);
    var hides := (id: nat) => id in rows && Covers(s, rows[id]);
    covered := CountVisited(rows, visited, hides);
    assert Satisfying(visited, hides) == set id | id in rows && !Hidden(rows[id]) && Hidden(after[id]);
  }

  // ----- deleting -----

  function Others(all: seq<Suppression>, source: nat, at: int, deleted: nat): seq<Suppression> {
    Without(Applicable(all, source, at), deleted)
  }

  function Deleting(all: seq<Suppression>, deleted: nat, f: Finding, at: int, actor: Option<nat>): Finding {
    if f.suppressedBy != Some(deleted) then f
    else HandOver(f, CoverFor(Others(all, f.source, at, deleted), f), actor, SuppressionDeleted(deleted))
  }

  function Deleted(rows: Table, all: seq<Suppression>, deleted: nat, at: int, actor: Option<nat>): Table {
    map id | id in rows :: Deleting(all, deleted, rows[id], at, actor)
  }

  /** Every cached list is the one the query would return. */
  ghost predicate Cached(cache: map<nat, seq<Suppression>>, all: seq<Suppression>, at: int, deleted: nat) {
    forall source :: source in cache ==> cache[source] == Others(all, source, at, deleted)
  }

  /** Reads a source's remaining rules through the cache. */
  method RulesFor(before: map<nat, seq<Suppression>>, all: seq<Suppression>, source: nat, at: int, deleted: nat)
    returns (rules: seq<Suppression>, cache: map<nat, seq<Suppression>>)
    requires Cached(before, all, at, deleted)
    ensures rules == Others(all, source, at, deleted) && Cached(cache, all, at, deleted)
  {
    cache := before;
    if source !in cache {
      cache := cache[source := Others(all, source, at, deleted)];
    }
    rules := cache[source];
  }

  predicate Frees(all: seq<Suppression>, deleted: nat, f: Finding, at: int) {
    f.suppressedBy == Some(deleted) && CoverFor(Others(all, f.source, at, deleted), f) == None
  }

  /** The table when the findings in `todo` are still to be looked at. */
  function PartlyDeleted(rows: Table, todo: set<nat>, all: seq<Suppression>, deleted: nat, at: int,
                         actor: Option<nat>): Table
  {
    map id | id in rows :: if id in todo then rows[id] else Deleting(all, deleted, rows[id], at, actor)
  }

  lemma DeletingOne(rows: Table, todo: set<nat>, all: seq<Suppression>, deleted: nat, at: int, actor: Option<nat>,
                    id: nat)
    requires id in rows && id in todo && rows[id].suppressedBy == Some(deleted)
    ensures var f := rows[id];
            PartlyDeleted(rows, todo, all, deleted, at, actor)
              [id := HandOver(f, CoverFor(Others(all, f.source, at, deleted), f), actor, SuppressionDeleted(deleted))]
            == PartlyDeleted(rows, todo - {id}, all, deleted, at, actor)
  {
  }

  lemma DeletedIsWhole(rows: Table, hits: set<nat>, all: seq<Suppression>, deleted: nat, at: int, actor: Option<nat>)
    requires forall id :: id in hits <==> id in rows && rows[id].suppressedBy == Some(deleted)
    ensures PartlyDeleted(rows, hits, all, deleted, at, actor) == rows
    ensures PartlyDeleted(rows, {}, all, deleted, at, actor) == Deleted(rows, all, deleted, at, actor)
  {
  }

  /** Releases or hands over everything one suppression hides, reading each source's rules once. */
  method ReleaseCoveredBy(rows: Table, all: seq<Suppression>, deleted: nat, at: int, actor: Option<nat>)
    returns (after: Table, released: nat)
    ensures after == Deleted(rows, all, deleted, at, actor)
    ensures released == |set id | id in rows && Frees(all, deleted, rows[id], at)|
  {
    var hits := set id | id in rows && rows[id].suppressedBy == Some(deleted);
    var todo := hits;
    var cache: map<nat, seq<Suppression>> := map[];
    DeletedIsWhole(rows, hits, all, deleted, at, actor);
    after, released := rows, 0;
    ghost var freed: set<nat> := {};
    while todo != {}
      invariant todo <= hits && Cached(cache, all, at, deleted)
      invariant after == PartlyDeleted(rows, todo, all, deleted, at, actor)
      invariant released == |freed| && forall id :: id in freed <==>
                id in hits && id !in todo && Frees(all, deleted, rows[id], at)
      decreases |todo|
    {
      var id :| id in todo;
      DeletingOne(rows, todo, all, deleted, at, actor, id);
      var f, rules := after[id], [];
      rules, cache := RulesFor(cache, all, f.source, at, deleted);
      var replacement := CoverFor(rules, f);
      after := after[id := HandOver(f, replacement, actor, SuppressionDeleted(deleted))];
      if replacement.None? {
        freed := freed + {id};
        released := released + 1;
      }
      todo := todo - {id};
    }
    assert freed == set id | id in rows && Frees(all, deleted, rows[id], at);
  }

  // ----- lapsing -----

  function Lapsing(all: seq<Suppression>, f: Finding, at: int): Finding {
    var own := if f.suppressedBy.Some? then ById(all, f.suppressedBy.value) else None;
    if own.Some? && Live(own.value, at) then f
    else
      HandOver(f, CoverFor(Applicable(all, f.source, at), f), None,
               if own.None? then SuppressionGone else SuppressionExpired(own.value.id))
  }

  function Lapsed(rows: Table, all: seq<Suppression>, at: int): Table {
    map id | id in rows :: if Hidden(rows[id]) then Lapsing(all, rows[id], at) else rows[id]
  }

  /** The maintenance sweep, and how many findings it returned to view. */
  method ReleaseLapsed(rows: Table, all: seq<Suppression>, at: int) returns (after: Table, released: nat)
    ensures after == Lapsed(rows, all, at)
    ensures released == |set id | id in rows && Hidden(rows[id]) && !Hidden(after[id])|
  {
    var visited;
    after, visited := InBatches(rows, (f: Finding) => Hidden(f), (f: Finding) => Lapsing(all, f, at), SWEEP_BATCH);
    var shown := (id: nat) => id in after && !Hidden(after[id]);
    released := CountVisited(rows, visited, shown);
    assert Satisfying(visited, shown) == set id | id in rows && Hidden(rows[id]) && !Hidden(after[id]);
  }

  // ----- who is hidden, and by what -----

  predicate Hides(s: Suppression, f: Finding) {
    f.suppressedBy == Some(s.id) && AppliesTo(s, f.source) && Covers(s, f)
  }

  /** A hidden finding names an existing suppression that applies to its source and matches it. */
  ghost predicate Justified(f: Finding, all: seq<Suppression>) {
    if Hidden(f) then exists s :: s in all && Hides(s, f) else f.suppressedBy == None
  }

  /** Some live suppression of the finding's source matches it. */
  ghost predicate CoveredBy(all: seq<Suppression>, f: Finding, at: int) {
    exists s :: s in all && AppliesTo(s, f.source) && Live(s, at) && Covers(s, f)
  }

  /** The hand-over candidate exists exactly when some rule in the list covers the finding. */
  lemma CoverForIs(rules: seq<Suppression>, f: Finding)
    ensures CoverFor(rules, f).Some? <==> exists s :: s in rules && Covers(s, f)
    ensures CoverFor(rules, f).Some? ==> CoverFor(rules, f).value in rules && Covers(CoverFor(rules, f).value, f)
  {
    FirstMatchIs(rules, f.fingerprint, f.ruleId, f.display.locator);
    if CoverFor(rules, f).None? {
      forall s | s in rules ensures !Covers(s, f) {
        var i :| 0 <= i < |rules| && rules[i] == s;
        assert !Matches(rules[i], f.fingerprint, f.ruleId, f.display.locator);
      }
    } else {
      var c := CoverFor(rules, f).value;
      assert c in rules && Covers(c, f);
    }
  }

  lemma CoverForApplicable(all: seq<Suppression>, f: Finding, at: int)
    ensures CoverFor(Applicable(all, f.source, at), f).Some? <==> CoveredBy(all, f, at)
    ensures var c := CoverFor(Applicable(all, f.source, at), f);
            c.Some? ==> c.value in all && AppliesTo(c.value, f.source) && Live(c.value, at) && Covers(c.value, f)
  {
    var rules := Applicable(all, f.source, at);
    CoverForIs(rules, f);
    forall s ensures s in rules <==> s in all && AppliesTo(s, f.source) && Live(s, at) {
      ApplicableIff(all, f.source, at, s);
    }
    if CoveredBy(all, f, at) {
      var s :| s in all && AppliesTo(s, f.source) && Live(s, at) && Covers(s, f);
      assert s in rules;
    }
  }

  lemma CoverForOthers(all: seq<Suppression>, f: Finding, at: int, deleted: nat)
    ensures CoverFor(Others(all, f.source, at, deleted), f).Some? <==> CoveredBy(Without(all, deleted), f, at)
    ensures var c := CoverFor(Others(all, f.source, at, deleted), f);
            c.Some? ==> && c.value in Without(all, deleted) && AppliesTo(c.value, f.source)
                        && Live(c.value, at) && Covers(c.value, f)
  {
    var rules := Others(all, f.source, at, deleted);
    CoverForIs(rules, f);
    forall s ensures s in rules <==> s in Without(all, deleted) && AppliesTo(s, f.source) && Live(s, at) {
      ApplicableIff(all, f.source, at, s);
      WithoutIs(Applicable(all, f.source, at), deleted, s);
      WithoutIs(all, deleted, s);
    }
    if CoveredBy(Without(all, deleted), f, at) {
      var s :| s in Without(all, deleted) && AppliesTo(s, f.source) && Live(s, at) && Covers(s, f);
      assert s in rules;
    }
  }

  // ----- each operation keeps the invariant -----

  lemma CreateJustifies(s: Suppression, all: seq<Suppression>, f: Finding, at: int, actor: Option<nat>)
    requires Justified(f, all)
    ensures Justified(Creating(s, f, at, actor), all + [s])
  {
    var g := Creating(s, f, at, actor);
    CreateHidesIff(s, f, at, actor);
    if Hidden(f) {
      var t :| t in all && Hides(t, f);
      assert t in all + [s] && Hides(t, g);
    } else if Hidden(g) {
      assert s in all + [s] && Hides(s, g);
    }
  }

  /**
   Deleting a suppression: what it hid stays hidden exactly when another live suppression covers
   it, and then it names that one; everything else is untouched.
   */
  lemma DeleteJustifies(all: seq<Suppression>, deleted: nat, f: Finding, at: int, actor: Option<nat>)
    requires Justified(f, all)
    ensures var g := Deleting(all, deleted, f, at, actor);
            && Justified(g, Without(all, deleted))
            && (f.suppressedBy != Some(deleted) ==> g == f)
            && (f.suppressedBy == Some(deleted) ==> (Hidden(g) <==> CoveredBy(Without(all, deleted), f, at)))
  {
    var g := Deleting(all, deleted, f, at, actor);
    CoverForOthers(all, f, at, deleted);
    if f.suppressedBy != Some(deleted) {
      if Hidden(f) {
        var t :| t in all && Hides(t, f);
        WithoutIs(all, deleted, t);
      }
    } else {
      var c := CoverFor(Others(all, f.source, at, deleted), f);
      if c.Some? { assert Hides(c.value, g); }
    }
  }

  /**
   A lapse sweep at `at`: a hidden finding stays hidden exactly when its own suppression is live
   or some live one covers it; afterwards whatever is hidden is hidden by a live suppression.
   */
  lemma LapseJustifies(all: seq<Suppression>, f: Finding, at: int)
    requires Justified(f, all) && DistinctIds(all) && Hidden(f)
    ensures var g := Lapsing(all, f, at);
            && Justified(g, all)
            && (Hidden(g) <==> CoveredBy(all, f, at))
            && (Hidden(g) ==> exists s :: s in all && Hides(s, g) && Live(s, at))
  {
    var g := Lapsing(all, f, at);
    CoverForApplicable(all, f, at);
    var s :| s in all && Hides(s, f);
    ByIdFinds(all, s);
    if Live(s, at) {
      assert Hides(s, g);
    } else {
      var c := CoverFor(Applicable(all, f.source, at), f);
      if c.Some? { assert Hides(c.value, g); }
    }
  }
}
