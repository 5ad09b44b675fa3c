/** The tables the routes update in place, with each operation as the transaction it is. */
module FindingStore {
  import opened Basics
  import opened Findings
  import opened Ingest
  import opened Suppressions
  import opened Lifecycle

  class Store {
    var rows: Table
    var suppressions: seq<Suppression>
    ghost const ruleOf: string -> string

    ghost function Books(): Register
      reads this
    {
      Register(rows, suppressions)
    }

    ghost predicate Valid()
      reads this
    {
      Inv(Books(), ruleOf)
    }

    constructor (ghost rule: string -> string)
      ensures Valid() && rows == map[] && suppressions == [] && ruleOf == rule
    {
      rows, suppressions, ruleOf := map[], [], rule;
    }

    method CreateSuppression(s: Suppression, at: int, actor: nat) returns (covered: nat)
      requires Valid() && Allowed(Books(), Action.CreateSuppression(s, at, actor), ruleOf)
      modifies this
      ensures Valid() && Books() == Next(old(Books()), Action.CreateSuppression(s, at, actor))
      ensures covered == |set id | id in old(rows) && !Hidden(old(rows)[id]) && Hidden(rows[id])|
    {
      StepKeeps(Books(), Action.CreateSuppression(s, at, actor), ruleOf);
      suppressions := suppressions + [s];
      rows, covered := ApplyToExisting(rows, s, at, Some(actor));
    }

    /** Unknown ids are refused and change nothing. */
    method DeleteSuppression(id: nat, at: int, actor: nat) returns (found: bool, released: nat)
      requires Valid()
      modifies this
      ensures Valid() && Books() == Next(old(Books()), Action.DeleteSuppression(id, at, actor))
      ensures found == ById(old(suppressions), id).Some?
      ensures found ==> released == |set k | k in old(rows) && Frees(old(suppressions), id, old(rows)[k], at)|
      ensures !found ==> Books() == old(Books())
    {
      StepKeeps(Books(), Action.DeleteSuppression(id, at, actor), ruleOf);
      found, released := ById(suppressions, id).Some?, 0;
      if found {
        rows, released := ReleaseCoveredBy(rows, suppressions, id, at, Some(actor));
        suppressions := Without(suppressions, id);
      }
    }

    method LapseSuppressions(at: int) returns (released: nat)
      requires Valid()
      modifies this
      ensures Valid() && Books() == Next(old(Books()), Action.LapseSuppressions(at))
      ensures released == |set id | id in old(rows) && Hidden(old(rows)[id]) && !Hidden(rows[id])|
    {
      StepKeeps(Books(), Action.LapseSuppressions(at), ruleOf);
      rows, released := ReleaseLapsed(rows, suppressions, at);
    }

    method Submit(b: Batch) returns (tally: Tally, belowThreshold: int)
      requires Valid() && Allowed(Books(), Action.Submit(b), ruleOf)
      modifies this
      ensures Valid() && Books() == Next(old(Books()), Action.Submit(b))
      ensures tally ==
              IngestEach(old(rows), Scored(b.payloads, b.threshold), ContextOf(old(Books()), b), b.stamps).tally
      ensures belowThreshold + |Scored(b.payloads, b.threshold)| == |b.payloads|
    {
      StepKeeps(Books(), Action.Submit(b), ruleOf);
      var ctx := Context(b.source, b.scan, b.at, Applicable(suppressions, b.source, b.at), b.policy, b.correlate);
      var result;
      result, belowThreshold := IngestFindings(rows, b.payloads, ctx, b.stamps, b.threshold);
      rows, tally := result.rows, result.tally;
    }

    /**
     A patch is applied as a whole or refused as a whole. It is refused exactly for a move the
     state machine does not list or, with a policy in force, a resolution without evidence.
     */
    method Triage(id: nat, patch: Patch, actor: nat, evidence: Option<bool>) returns (refused: Option<Refusal>)
      requires Valid() && id in rows
      modifies this
      ensures Valid() && Books() == Next(old(Books()), Action.Triage(id, patch, actor, evidence))
      ensures refused == Refused(old(rows)[id], patch, evidence)
      ensures refused.Some? ==> Books() == old(Books())
    {
      StepKeeps(Books(), Action.Triage(id, patch, actor, evidence), ruleOf);
      var f := rows[id];
      refused := Refused(f, patch, evidence);
      if refused.None? {
        var to := MovingTo(f, patch);
        if to.Some? {
          f := Transition(f, to.value, Some(actor));
        }
        if patch.assignee.Some? && patch.assignee.value != f.standing.assignee {
          f := Assign(f, patch.assignee.value, actor);
        }
        if patch.owner.Some? {
          f := Own(f, patch.owner.value, actor);
        }
        if patch.notes.Some? && patch.notes.value != f.notes {
          f := Annotate(f, patch.notes.value, actor);
        }
        rows := rows[id := f];
      } else {
        assert rows[id := rows[id]] == rows;
      }
    }

    /** Resolves, one conditional update at a time, what a completed scan did not see. */
    method Reconcile(source: nat, scan: nat, sawContent: bool) returns (resolved: nat)
      requires Valid()
      modifies this
      ensures Valid() && Books() == Next(old(Books()), Action.Reconcile(source, scan, sawContent))
      ensures resolved == if sawContent then |set id | id in old(rows) && Missing(old(rows)[id], source, scan)| else 0
    {
      StepKeeps(Books(), Action.Reconcile(source, scan, sawContent), ruleOf);
      resolved := 0;
      if sawContent {
        rows, resolved := ResolveMissing(rows, source, scan);
      }
    }
  }

  function PartlyResolved(rows: Table, todo: set<nat>, source: nat, scan: nat): Table {
    map id | id in rows :: if id in todo then rows[id] else AutoResolved(rows[id], source, scan)
  }

  method ResolveMissing(rows: Table, source: nat, scan: nat) returns (after: Table, resolved: nat)
    ensures after == Reconciled(rows, source, scan, true)
    ensures resolved == |set id | id in rows && Missing(rows[id], source, scan)|
  {
    var missing := set id | id in rows && Missing(rows[id], source, scan);
    var todo := missing;
    after, resolved := rows, 0;
    assert rows == PartlyResolved(rows, todo, source, scan);
    while todo != {}
      invariant todo <= missing && after == PartlyResolved(rows, todo, source, scan)
      invariant resolved == |missing| - |todo|
      decreases |todo|
    {
      var id :| id in todo;
      todo := todo - {id};
      if after[id].standing.state == Open {
        after := after[id := Transition(after[id], Resolved, None)];
        resolved := resolved + 1;
      }
    }
    assert after == Reconciled(rows, source, scan, true);
    assert missing == set id | id in rows && Missing(rows[id], source, scan);
  }
}
