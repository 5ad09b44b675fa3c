/** What a receiving system reports back about handed-over work, in whatever order it arrives. */
module Callback {
  import opened Basics
  import opened Findings

  datatype External = ExternalOpen | InProgress | ExternalResolved | Rejected | Cancelled

  /** A callback with the receiver's own time for the state, if it sent one, and our arrival time. */
  datatype Report = Report(state: External, stateAt: Option<int>, externalId: Option<string>,
                           externalUrl: Option<string>, arrivedAt: int)

  /** What a hand-over knows of the other side. */
  datatype Link = Link(state: Option<External>, stateAt: Option<int>, heardAt: Option<int>,
                       externalId: Option<string>, externalUrl: Option<string>)

  const MAX_ID: nat := 255
  const MAX_URL: nat := 2048

  function Clipped(value: string, limit: nat): string {
    if |value| <= limit then value else value[..limit]
  }

  predicate Carries(value: Option<string>) {
    value.Some? && value.value != ""
  }

  /** Only the receiver's own time can put two callbacks in order. */
  predicate Stale(k: Link, c: Report) {
    c.stateAt.Some? && k.stateAt.Some? && c.stateAt.value < k.stateAt.value
  }

  function Recorded(k: Link, c: Report): Link {
    if Stale(k, c) then k.(heardAt := Some(c.arrivedAt))
    else
      Link(Some(c.state), Some(if c.stateAt.Some? then c.stateAt.value else c.arrivedAt), Some(c.arrivedAt),
           if Carries(c.externalId) then Some(Clipped(c.externalId.value, MAX_ID)) else k.externalId,
           if Carries(c.externalUrl) then Some(Clipped(c.externalUrl.value, MAX_URL)) else k.externalUrl)
  }

  function After(k: Link, cs: seq<Report>): Link {
    if cs == [] then k else Recorded(After(k, cs[..|cs| - 1]), cs[|cs| - 1])
  }

  function Silent(): Link {
    Link(None, None, None, None, None)
  }

  // ----- out of order arrivals -----

  predicate Dated(cs: seq<Report>) {
    forall i :: 0 <= i < |cs| ==> cs[i].stateAt.Some?
  }

  predicate DistinctTimes(cs: seq<Report>) {
    forall i, j :: 0 <= i < j < |cs| ==> cs[i].stateAt != cs[j].stateAt
  }

  /** No callback is later than this one. */
  predicate Latest(cs: seq<Report>, i: int)
    requires Dated(cs)
  {
    0 <= i < |cs| && forall j :: 0 <= j < |cs| ==> cs[j].stateAt.value <= cs[i].stateAt.value
  }

  /** The state never moves back in the receiver's time, except through a callback that names no time. */
  lemma MovesBackIff(k: Link, c: Report)
    ensures (k.stateAt.Some? && Recorded(k, c).stateAt.Some? && Recorded(k, c).stateAt.value < k.stateAt.value) <==>
            (k.stateAt.Some? && c.stateAt.None? && c.arrivedAt < k.stateAt.value)
  {
  }

  /** Dated callbacks end on one that is the latest. */
  lemma {:induction false} LatestWins(cs: seq<Report>) returns (i: nat)
    requires Dated(cs) && cs != []
    ensures Latest(cs, i) && After(Silent(), cs).state == Some(cs[i].state) &&
            After(Silent(), cs).stateAt == cs[i].stateAt
  {
    var n := |cs| - 1;
    var before := cs[..n];
    i := n;
    if before != [] {
      assert forall k :: 0 <= k < n ==> before[k] == cs[k];
      i := LatestWins(before);
      if !(cs[n].stateAt.value < cs[i].stateAt.value) {
        i := n;
      }
    }
  }

  lemma SameTimes(cs: seq<Report>, ds: seq<Report>)
    requires Dated(cs) && multiset(ds) == multiset(cs)
    ensures Dated(ds) && |ds| == |cs|
  {
    assert |multiset(ds)| == |multiset(cs)|;
    forall i | 0 <= i < |ds| ensures ds[i].stateAt.Some? {
      assert ds[i] in multiset(cs);
    }
  }

  lemma FindIn(cs: seq<Report>, ds: seq<Report>, i: nat) returns (k: nat)
    requires multiset(ds) == multiset(cs) && i < |ds|
    ensures k < |cs| && cs[k] == ds[i]
  {
    assert ds[i] in multiset(cs);
    k :| 0 <= k < |cs| && cs[k] == ds[i];
  }

  lemma LatestCarriesOver(cs: seq<Report>, ds: seq<Report>, i: nat, k: nat)
    requires Dated(cs) && Dated(ds) && multiset(ds) == multiset(cs) && Latest(ds, i) && k < |cs| && cs[k] == ds[i]
    ensures Latest(cs, k)
  {
    forall j | 0 <= j < |cs| ensures cs[j].stateAt.value <= cs[k].stateAt.value {
      var m := FindIn(ds, cs, j);
    }
  }

  ghost predicate LatestAgree(cs: seq<Report>)
    requires Dated(cs)
  {
    forall i, j :: Latest(cs, i) && Latest(cs, j) ==> cs[i].state == cs[j].state
  }

  /** Every arrival order ends in the same external state. */
  ghost predicate Converges(cs: seq<Report>) {
    forall ds: seq<Report> :: multiset(ds) == multiset(cs) ==> After(Silent(), ds).state == After(Silent(), cs).state
  }

  function Drop(cs: seq<Report>, i: nat): seq<Report>
    requires i < |cs|
  {
    cs[..i] + cs[i + 1..]
  }

  lemma DropSplits(cs: seq<Report>, i: nat)
    requires i < |cs|
    ensures multiset(Drop(cs, i) + [cs[i]]) == multiset(cs) && multiset([cs[i]] + Drop(cs, i)) == multiset(cs)
  {
    assert cs == cs[..i] + [cs[i]] + cs[i + 1..];
  }

  /** An order that ends with a latest callback ends in its state. */
  lemma EndingWith(cs: seq<Report>, i: nat)
    requires Dated(cs) && Latest(cs, i)
    ensures After(Silent(), Drop(cs, i) + [cs[i]]).state == Some(cs[i].state)
  {
    var rest := Drop(cs, i);
    assert (rest + [cs[i]])[..|rest|] == rest;
    assert forall k :: 0 <= k < |rest| ==> rest[k] == cs[if k < i then k else k + 1];
    if rest != [] {
      var k := LatestWins(rest);
    }
  }

  /** Dated callbacks converge exactly when those with the latest time agree on the state. */
  lemma ConvergesIff(cs: seq<Report>)
    requires Dated(cs)
    ensures Converges(cs) <==> LatestAgree(cs)
  {
    if LatestAgree(cs) {
      forall ds: seq<Report> | multiset(ds) == multiset(cs)
        ensures After(Silent(), ds).state == After(Silent(), cs).state
      {
        AgreeingConverge(cs, ds);
      }
    }
    if Converges(cs) {
      forall i, j | Latest(cs, i) && Latest(cs, j) ensures cs[i].state == cs[j].state {
        DropSplits(cs, i);
        DropSplits(cs, j);
        EndingWith(cs, i);
        EndingWith(cs, j);
      }
    }
  }

  lemma AgreeingConverge(cs: seq<Report>, ds: seq<Report>)
    requires Dated(cs) && LatestAgree(cs) && multiset(ds) == multiset(cs)
    ensures After(Silent(), ds).state == After(Silent(), cs).state
  {
    SameTimes(cs, ds);
    if cs != [] {
      var i := LatestWins(cs);
      var k := LatestWins(ds);
      var m := FindIn(cs, ds, k);
      LatestCarriesOver(cs, ds, k, m);
    } else {
      assert ds == cs;
    }
  }

  /** With distinct times every order ends in the state of the latest callback. */
  lemma DistinctTimesConverge(cs: seq<Report>, ds: seq<Report>, i: nat)
    requires Dated(cs) && DistinctTimes(cs) && multiset(ds) == multiset(cs) && Latest(cs, i)
    ensures After(Silent(), ds).state == Some(cs[i].state)
  {
    OnlyOneLatest(cs);
    AgreeingConverge(cs, ds);
    var k := LatestWins(cs);
  }

  lemma OnlyOneLatest(cs: seq<Report>)
    requires Dated(cs) && DistinctTimes(cs)
    ensures forall i, j :: Latest(cs, i) && Latest(cs, j) ==> i == j
    ensures LatestAgree(cs)
  {
    forall i, j | Latest(cs, i) && Latest(cs, j) ensures i == j {
      assert cs[i].stateAt == cs[j].stateAt;
    }
  }

  // ----- the external id does not follow -----

  lemma {:induction false} AfterFirst(k: Link, c: Report, cs: seq<Report>)
    ensures After(k, [c] + cs) == After(Recorded(k, c), cs)
  {
    var all := [c] + cs;
    if cs == [] {
      assert all == [c] && all[..0] == [];
    } else {
      assert all[..|all| - 1] == [c] + cs[..|cs| - 1];
      AfterFirst(k, c, cs[..|cs| - 1]);
    }
  }

  /** Silence is not a retraction. */
  lemma {:induction false} IdNeverBlanked(k: Link, cs: seq<Report>)
    requires k.externalId.Some?
    ensures After(k, cs).externalId.Some?
  {
    if cs != [] {
      IdNeverBlanked(k, cs[..|cs| - 1]);
    }
  }

  /** Callbacks that leave the id of a link with this time as it is: older, or as late and without an id. */
  predicate LeaveId(cs: seq<Report>, time: int)
    requires Dated(cs)
  {
    forall i :: 0 <= i < |cs| ==>
      cs[i].stateAt.value < time || (cs[i].stateAt.value == time && !Carries(cs[i].externalId))
  }

  lemma {:induction false} IdIsLeft(k: Link, cs: seq<Report>)
    requires Dated(cs) && k.stateAt.Some? && LeaveId(cs, k.stateAt.value)
    ensures After(k, cs).externalId == k.externalId && After(k, cs).stateAt == k.stateAt
  {
    if cs != [] {
      IdIsLeft(k, cs[..|cs| - 1]);
    }
  }

  predicate NoneCarries(cs: seq<Report>) {
    forall i :: 0 <= i < |cs| ==> !Carries(cs[i].externalId)
  }

  lemma {:induction false} NoIdArrives(cs: seq<Report>)
    requires NoneCarries(cs)
    ensures After(Silent(), cs).externalId == None
  {
    if cs != [] {
      NoIdArrives(cs[..|cs| - 1]);
    }
  }

  lemma LatestTimeIs(cs: seq<Report>, i: nat)
    requires Dated(cs) && Latest(cs, i)
    ensures After(Silent(), cs).stateAt == cs[i].stateAt
  {
    var k := LatestWins(cs);
  }

  function IdOf(c: Report): string
    requires Carries(c.externalId)
  {
    Clipped(c.externalId.value, MAX_ID)
  }

  predicate CarriesLast(cs: seq<Report>, i: int)
    requires Dated(cs)
  {
    Latest(cs, i) && Carries(cs[i].externalId)
  }

  /** Some callback with the latest time carries an id. */
  ghost predicate LatestCarries(cs: seq<Report>)
    requires Dated(cs)
  {
    exists i :: CarriesLast(cs, i)
  }

  /** Those of the latest callbacks that carry an id carry the same one. */
  ghost predicate CarriersAgree(cs: seq<Report>)
    requires Dated(cs)
  {
    forall i, j :: CarriesLast(cs, i) && CarriesLast(cs, j) ==> IdOf(cs[i]) == IdOf(cs[j])
  }

  lemma NewcomerWins(cs: seq<Report>)
    requires Dated(cs) && cs != [] && CarriesLast(cs, |cs| - 1)
    ensures After(Silent(), cs).externalId == Some(IdOf(cs[|cs| - 1]))
  {
    var before := cs[..|cs| - 1];
    if before != [] {
      var k := LatestWins(before);
      assert before[k] == cs[k];
    }
  }

  lemma NewcomerLoses(cs: seq<Report>, k: nat)
    requires Dated(cs) && k < |cs| - 1 && Latest(cs, k) && !CarriesLast(cs, |cs| - 1)
    ensures Latest(cs[..|cs| - 1], k)
    ensures After(Silent(), cs).externalId == After(Silent(), cs[..|cs| - 1]).externalId
  {
    LatestTimeIs(cs[..|cs| - 1], k);
    if cs[|cs| - 1].stateAt == cs[k].stateAt {
      assert Latest(cs, |cs| - 1);
    }
  }

  /** If a latest callback carries an id, the id at the end is that of one of them. */
  lemma {:induction false} LatestIdWins(cs: seq<Report>) returns (i: nat)
    requires Dated(cs) && LatestCarries(cs)
    ensures CarriesLast(cs, i) && After(Silent(), cs).externalId == Some(IdOf(cs[i]))
  {
    var n := |cs| - 1;
    if CarriesLast(cs, n) {
      i := n;
      NewcomerWins(cs);
    } else {
      var k :| CarriesLast(cs, k);
      NewcomerLoses(cs, k);
      assert CarriesLast(cs[..n], k);
      i := LatestIdWins(cs[..n]);
      assert cs[..n][k].stateAt.value <= cs[..n][i].stateAt.value;
    }
  }

  /** Every arrival order ends with the same external id. */
  ghost predicate IdConverges(cs: seq<Report>) {
    forall ds: seq<Report> :: multiset(ds) == multiset(cs) ==>
        After(Silent(), ds).externalId == After(Silent(), cs).externalId
  }

  lemma {:induction false} FirstIdStays(cs: seq<Report>, i: nat)
    requires i < |cs| && Carries(cs[i].externalId)
    ensures After(Silent(), [cs[i]] + Drop(cs, i)).externalId.Some?
  {
    AfterFirst(Silent(), cs[i], Drop(cs, i));
    IdNeverBlanked(Recorded(Silent(), cs[i]), Drop(cs, i));
  }

  lemma LatestFirstShutsOut(cs: seq<Report>, i: nat)
    requires Dated(cs) && Latest(cs, i) && !LatestCarries(cs)
    ensures After(Silent(), [cs[i]] + Drop(cs, i)).externalId == None
  {
    var rest := Drop(cs, i);
    assert !CarriesLast(cs, i);
    forall k | 0 <= k < |rest|
      ensures rest[k].stateAt.Some?
      ensures rest[k].stateAt.value < cs[i].stateAt.value ||
              (rest[k].stateAt == cs[i].stateAt && !Carries(rest[k].externalId))
    {
      var m := if k < i then k else k + 1;
      assert rest[k] == cs[m] && !CarriesLast(cs, m);
    }
    AfterFirst(Silent(), cs[i], rest);
    IdIsLeft(Recorded(Silent(), cs[i]), rest);
  }

  /**
   A stale callback's id is dropped with its state. So the id converges exactly when no callback
   carries one, or a latest one does and all latest ones that do carry the same.
   */
  lemma IdConvergesIff(cs: seq<Report>)
    requires Dated(cs)
    ensures IdConverges(cs) <==> NoneCarries(cs) || (LatestCarries(cs) && CarriersAgree(cs))
  {
    if NoneCarries(cs) || (LatestCarries(cs) && CarriersAgree(cs)) {
      forall ds: seq<Report> | multiset(ds) == multiset(cs)
        ensures After(Silent(), ds).externalId == After(Silent(), cs).externalId
      {
        SameId(cs, ds);
      }
    } else if LatestCarries(cs) {
      var i, j :| CarriesLast(cs, i) && CarriesLast(cs, j) && IdOf(cs[i]) != IdOf(cs[j]);
      CarriersDiverge(cs, i, j);
    } else {
      var k :| 0 <= k < |cs| && Carries(cs[k].externalId);
      var i := LatestWins(cs);
      IdDiverges(cs, i, k);
    }
  }

  lemma IdDiverges(cs: seq<Report>, i: nat, k: nat)
    requires Dated(cs) && Latest(cs, i) && !LatestCarries(cs)
    requires k < |cs| && Carries(cs[k].externalId)
    ensures !IdConverges(cs)
  {
    var with, without := [cs[k]] + Drop(cs, k), [cs[i]] + Drop(cs, i);
    DropSplits(cs, k);
    DropSplits(cs, i);
    FirstIdStays(cs, k);
    LatestFirstShutsOut(cs, i);
    assert multiset(with) == multiset(cs) == multiset(without);
    assert After(Silent(), with).externalId != After(Silent(), without).externalId;
  }

  /** An order that ends with a latest callback that carries an id ends with that id. */
  lemma EndingWithId(cs: seq<Report>, i: nat)
    requires Dated(cs) && CarriesLast(cs, i)
    ensures multiset(Drop(cs, i) + [cs[i]]) == multiset(cs)
    ensures After(Silent(), Drop(cs, i) + [cs[i]]).externalId == Some(IdOf(cs[i]))
  {
    var ds := Drop(cs, i) + [cs[i]];
    DropSplits(cs, i);
    SameTimes(cs, ds);
    LatestCarriesOver(ds, cs, i, |ds| - 1);
    NewcomerWins(ds);
  }

  lemma CarriersDiverge(cs: seq<Report>, i: nat, j: nat)
    requires Dated(cs) && CarriesLast(cs, i) && CarriesLast(cs, j) && IdOf(cs[i]) != IdOf(cs[j])
    ensures !IdConverges(cs)
  {
    EndingWithId(cs, i);
    EndingWithId(cs, j);
    assert After(Silent(), Drop(cs, i) + [cs[i]]).externalId != After(Silent(), Drop(cs, j) + [cs[j]]).externalId;
  }

  lemma SameId(cs: seq<Report>, ds: seq<Report>)
    requires Dated(cs) && multiset(ds) == multiset(cs)
    requires NoneCarries(cs) || (LatestCarries(cs) && CarriersAgree(cs))
    ensures After(Silent(), ds).externalId == After(Silent(), cs).externalId
  {
    SameTimes(cs, ds);
    if NoneCarries(cs) {
      forall k | 0 <= k < |ds| ensures !Carries(ds[k].externalId) {
        var m := FindIn(cs, ds, k);
      }
      NoIdArrives(cs);
      NoIdArrives(ds);
    } else {
      CarriesOver(cs, ds);
      var i := LatestIdWins(cs);
      var k := LatestIdWins(ds);
      var m := FindIn(cs, ds, k);
      LatestCarriesOver(cs, ds, k, m);
    }
  }

  lemma CarriesOver(cs: seq<Report>, ds: seq<Report>)
    requires Dated(cs) && Dated(ds) && multiset(ds) == multiset(cs) && LatestCarries(cs)
    ensures LatestCarries(ds)
  {
    var i :| CarriesLast(cs, i);
    var k := FindIn(ds, cs, i);
    LatestCarriesOver(ds, cs, i, k);
    assert CarriesLast(ds, k);
  }

  /** With distinct times the one latest callback decides. */
  lemma DistinctTimesIdConverges(cs: seq<Report>, i: nat)
    requires Dated(cs) && DistinctTimes(cs) && Latest(cs, i)
    ensures IdConverges(cs) <==> NoneCarries(cs) || Carries(cs[i].externalId)
  {
    IdConvergesIff(cs);
    OnlyOneLatest(cs);
    assert LatestCarries(cs) <==> CarriesLast(cs, i);
  }

  // ----- disagreement with the finding -----

  predicate Terminal(e: External) {
    e == ExternalResolved || e == Rejected || e == Cancelled
  }

  datatype Conflict = ExternalDoneFindingOpen(external: External) | FindingDoneExternalOpen(finding: State,
      external: External)

  function ConflictOf(state: Option<External>, dismissed: Option<External>, finding: State): Option<Conflict> {
    if state.None? || dismissed == state then None
    else if Terminal(state.value) && finding == Open then Some(ExternalDoneFindingOpen(state.value))
    else if !Terminal(state.value) && finding != Open then Some(FindingDoneExternalOpen(finding, state.value))
    else None
  }

  /** The hand-over row as callbacks and dismissals update it. */
  class Handover {
    var link: Link
    var dismissed: Option<External>
    var dismissedAt: Option<int>
    var dismissedBy: Option<nat>

    constructor ()
      ensures link == Silent() && dismissed == None
    {
      link, dismissed, dismissedAt, dismissedBy := Silent(), None, None, None;
    }

    /** Records a callback; a dismissal stays pinned to the state it was made about. */
    method Record(c: Report)
      modifies this
      ensures link == Recorded(old(link), c)
      ensures dismissed == old(dismissed) && dismissedAt == old(dismissedAt) && dismissedBy == old(dismissedBy)
    {
      if c.stateAt.Some? && link.stateAt.Some? && c.stateAt.value < link.stateAt.value {
        link := link.(heardAt := Some(c.arrivedAt));
        return;
      }
      link := link.(state := Some(c.state), heardAt := Some(c.arrivedAt),
                    stateAt := Some(if c.stateAt.Some? then c.stateAt.value else c.arrivedAt));
      if Carries(c.externalId) {
        link := link.(externalId := Some(Clipped(c.externalId.value, MAX_ID)));
      }
      if Carries(c.externalUrl) {
        link := link.(externalUrl := Some(Clipped(c.externalUrl.value, MAX_URL)));
      }
    }

    /** Records every callback of a run, in the order they arrive. */
    method RecordAll(cs: seq<Report>)
      modifies this
      ensures link == After(old(link), cs) && dismissed == old(dismissed)
    {
      for n := 0 to |cs|
        invariant link == After(old(link), cs[..n]) && dismissed == old(dismissed)
      {
        assert cs[..n + 1][..n] == cs[..n];
        Record(cs[n]);
      }
      assert cs[..|cs|] == cs;
    }

    /** Accepting a divergence silences it whatever the finding becomes, and touches nothing else. */
    method Dismiss(actor: nat, at: int)
      modifies this
      ensures link == old(link) && dismissedAt == Some(at) && dismissedBy == Some(actor)
      ensures forall finding :: ConflictOf(link.state, dismissed, finding) == None
      ensures dismissed == link.state
    {
      dismissed, dismissedAt, dismissedBy := link.state, Some(at), Some(actor);
    }
  }

  /** Callbacks that bring nothing the dismissal did not see: the same state again, or older news. */
  predicate BringsNothingNew(k: Link, cs: seq<Report>) {
    && Dated(cs) && k.state.Some? && k.stateAt.Some?
    && forall i :: 0 <= i < |cs| ==> cs[i].state == k.state.value || cs[i].stateAt.value < k.stateAt.value
  }

  lemma {:induction false} NothingNewArrives(k: Link, cs: seq<Report>)
    requires BringsNothingNew(k, cs)
    ensures After(k, cs).state == k.state
    ensures After(k, cs).stateAt.Some? && After(k, cs).stateAt.value >= k.stateAt.value
  {
    if cs != [] {
      NothingNewArrives(k, cs[..|cs| - 1]);
    }
  }

  /** A dismissed conflict stays silent through every run of repeated and out-of-order callbacks. */
  lemma DismissalOutlastsOldNews(k: Link, cs: seq<Report>, finding: State)
    requires BringsNothingNew(k, cs)
    ensures ConflictOf(After(k, cs).state, k.state, finding) == None
  {
    NothingNewArrives(k, cs);
  }

  /**
   It is raised again by the next callback exactly when that one is not stale, names another
   state, and disagrees with the finding about whether work is left.
   */
  lemma NewsReopensIff(k: Link, cs: seq<Report>, c: Report, finding: State)
    requires BringsNothingNew(k, cs)
    ensures ConflictOf(After(k, cs + [c]).state, k.state, finding).Some? <==>
            && !Stale(After(k, cs), c) && Some(c.state) != k.state
            && (Terminal(c.state) <==> finding == Open)
  {
    NothingNewArrives(k, cs);
    assert (cs + [c])[..|cs|] == cs;
  }
}
