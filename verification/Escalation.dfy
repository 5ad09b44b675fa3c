/** Announcing findings that have passed their response target, a bounded page per beat. */
module Escalation {
  import opened Basics
  import opened Findings

  /** An enabled channel with its event filter; no listed source means every source. */
  datatype Channel = Channel(id: nat, minSeverity: Option<Severity>, sources: set<nat>)
  datatype Group = Group(id: nat, disabled: bool, channel: Option<nat>)

  /** An overdue announcement in the outbox. */
  datatype Delivery = Delivery(channel: nat, finding: nat, dueAt: int)

  datatype World = World(rows: Table, channels: seq<Channel>, groups: seq<Group>)

  ghost predicate WellKeyed(w: World) {
    && (forall i, j :: 0 <= i < j < |w.channels| ==> w.channels[i].id != w.channels[j].id)
    && (forall i, j :: 0 <= i < j < |w.groups| ==> w.groups[i].id != w.groups[j].id)
  }

  // ----- the filter, read twice -----

  predicate Wants(c: Channel, f: Finding) {
    && (c.minSeverity.Some? ==> !(Rank(f.display.severity) < Rank(c.minSeverity.value)))
    && !(c.sources != {} && f.source !in c.sources)
  }

  const SEVERITIES: set<Severity> := {Low, Medium, High, Critical}

  function AtOrAbove(minimum: Severity): set<Severity> {
    set s | s in SEVERITIES && Rank(s) >= Rank(minimum)
  }

  predicate WantedBy(c: Channel, f: Finding) {
    && (c.minSeverity.Some? ==> f.display.severity in AtOrAbove(c.minSeverity.value))
    && (c.sources != {} ==> f.source in c.sources)
  }

  /** The two readings of a channel's filter agree. */
  lemma FilterReadingsAgree(c: Channel, f: Finding)
    ensures Wants(c, f) <==> WantedBy(c, f)
  {
    match f.display.severity
    case Low => assert Low in SEVERITIES;
    case Medium => assert Medium in SEVERITIES;
    case High => assert High in SEVERITIES;
    case Critical => assert Critical in SEVERITIES;
  }

  // ----- the target, read twice -----

  predicate Enabled(channels: seq<Channel>, id: Option<nat>) {
    id.Some? && exists i :: 0 <= i < |channels| && channels[i].id == id.value
  }

  predicate Targeted(w: World, owner: nat) {
    exists i :: 0 <= i < |w.groups| && w.groups[i].id == owner && !w.groups[i].disabled &&
        Enabled(w.channels, w.groups[i].channel)
  }

  predicate Disbanded(w: World, owner: nat) {
    exists i :: 0 <= i < |w.groups| && w.groups[i].id == owner && w.groups[i].disabled
  }

  predicate Broadcast(w: World, f: Finding) {
    exists i :: 0 <= i < |w.channels| && WantedBy(w.channels[i], f)
  }

  /** The predicate the query applies before its limit. */
  predicate HasTarget(w: World, f: Finding) {
    var owner := f.standing.owner;
    || (owner.Some? && Targeted(w, owner.value))
    || ((owner.None? || Disbanded(w, owner.value)) && Broadcast(w, f))
  }

  function GroupById(groups: seq<Group>, id: nat): Option<Group> {
    if groups == [] then None
    else if groups[|groups| - 1].id == id then Some(groups[|groups| - 1])
    else GroupById(groups[..|groups| - 1], id)
  }

  function ChannelById(channels: seq<Channel>, id: nat): Option<nat> {
    if channels == [] then None
    else if channels[|channels| - 1].id == id then Some(id)
    else ChannelById(channels[..|channels| - 1], id)
  }

  function Wanting(channels: seq<Channel>, f: Finding): seq<nat> {
    if channels == [] then []
    else
      var rest, last := Wanting(channels[..|channels| - 1], f), channels[|channels| - 1];
      if Wants(last, f) then rest + [last.id] else rest
  }

  function OwnerOf(w: World, f: Finding): Option<Group> {
    if f.standing.owner.None? then None else GroupById(w.groups, f.standing.owner.value)
  }

  /** Where one overdue finding's escalation goes, as channel ids. */
  function Targets(w: World, f: Finding): seq<nat> {
    var group := OwnerOf(w, f);
    if group.Some? && !group.value.disabled then
      var channel := if group.value.channel.None? then None else ChannelById(w.channels, group.value.channel.value);
      if channel.Some? then [channel.value] else []
    else Wanting(w.channels, f)
  }

  lemma {:induction false} GroupByIdIs(groups: seq<Group>, id: nat)
    ensures GroupById(groups, id).None? <==> forall i :: 0 <= i < |groups| ==> groups[i].id != id
    ensures GroupById(groups, id).Some? ==>
            exists i :: 0 <= i < |groups| && groups[i] == GroupById(groups, id).value && groups[i].id == id
  {
    if groups != [] {
      GroupByIdIs(groups[..|groups| - 1], id);
      assert forall i :: 0 <= i < |groups| - 1 ==> groups[..|groups| - 1][i] == groups[i];
    }
  }

  lemma {:induction false} ChannelByIdIs(channels: seq<Channel>, id: nat)
    ensures ChannelById(channels, id).Some? <==> Enabled(channels, Some(id))
    ensures ChannelById(channels, id).Some? ==> ChannelById(channels, id).value == id
  {
    if channels != [] {
      ChannelByIdIs(channels[..|channels| - 1], id);
      if Enabled(channels, Some(id)) && channels[|channels| - 1].id != id {
        var i :| 0 <= i < |channels| && channels[i].id == id;
        assert channels[..|channels| - 1][i].id == id;
      }
    }
  }

  lemma {:induction false} WantingIs(channels: seq<Channel>, f: Finding)
    ensures Wanting(channels, f) != [] <==> exists i :: 0 <= i < |channels| && WantedBy(channels[i], f)
    ensures forall c :: c in Wanting(channels, f) ==> exists i :: 0 <= i < |channels| && channels[i].id == c
  {
    if channels != [] {
      var rest, last := channels[..|channels| - 1], channels[|channels| - 1];
      WantingIs(rest, f);
      FilterReadingsAgree(last, f);
      assert forall i :: 0 <= i < |rest| ==> rest[i] == channels[i];
      if WantedBy(last, f) { assert WantedBy(channels[|channels| - 1], f); }
      forall c | c in Wanting(channels, f) ensures exists i :: 0 <= i < |channels| && channels[i].id == c {
        if c in Wanting(rest, f) {
          var i :| 0 <= i < |rest| && rest[i].id == c;
          assert channels[i].id == c;
        } else {
          assert channels[|channels| - 1].id == c;
        }
      }
    }
  }

  /** The owner the finding names is no longer in the table, which a foreign key forbids. */
  predicate Dangling(w: World, f: Finding) {
    f.standing.owner.Some? && forall i :: 0 <= i < |w.groups| ==> w.groups[i].id != f.standing.owner.value
  }

  /**
   The query's predicate holds exactly when the list of targets is not empty, with one
   exception: a dangling owner, which the query drops and the list would broadcast.
   */
  lemma TargetReadingsAgreeIff(w: World, f: Finding)
    requires WellKeyed(w)
    ensures (HasTarget(w, f) <==> Targets(w, f) != []) <==> !(Dangling(w, f) && Broadcast(w, f))
  {
    WantingIs(w.channels, f);
    if f.standing.owner.Some? {
      var owner := f.standing.owner.value;
      GroupByIdIs(w.groups, owner);
      if GroupById(w.groups, owner).Some? {
        var group := GroupById(w.groups, owner).value;
        var k :| 0 <= k < |w.groups| && w.groups[k] == group && w.groups[k].id == owner;
        OnlyGroup(w, k);
        if group.channel.Some? { ChannelByIdIs(w.channels, group.channel.value); }
      }
    }
  }

  lemma OnlyGroup(w: World, k: nat)
    requires WellKeyed(w) && k < |w.groups|
    ensures Targeted(w, w.groups[k].id) <==> !w.groups[k].disabled && Enabled(w.channels, w.groups[k].channel)
    ensures Disbanded(w, w.groups[k].id) <==> w.groups[k].disabled
  {
    forall i | 0 <= i < |w.groups| && i != k ensures w.groups[i].id != w.groups[k].id {
    }
  }

  // ----- the queue -----

  predicate Overdue(f: Finding, at: int) {
    f.standing.state == Open && !Hidden(f) && f.dueAt.Some? && f.dueAt.value < at
  }

  /** An announcement of this finding for its present deadline is already in the outbox. */
  predicate Escalated(outbox: seq<Delivery>, id: nat, f: Finding) {
    f.dueAt.Some? && exists i :: 0 <= i < |outbox| && outbox[i].finding == id && outbox[i].dueAt == f.dueAt.value
  }

  function Backlog(w: World, outbox: seq<Delivery>, at: int): set<nat> {
    set id | id in w.rows && Overdue(w.rows[id], at) && !Escalated(outbox, id, w.rows[id]) && HasTarget(w, w.rows[id])
  }

  function Deadline(w: World, id: nat): int {
    if id in w.rows && w.rows[id].dueAt.Some? then w.rows[id].dueAt.value else 0
  }

  /** The oldest `limit` of the backlog; the query does not order equal deadlines. */
  ghost predicate IsPage(w: World, backlog: set<nat>, limit: nat, page: seq<nat>) {
    && |page| == (if |backlog| < limit then |backlog| else limit)
    && (forall i :: 0 <= i < |page| ==> page[i] in backlog)
    && (forall i, j :: 0 <= i < j < |page| ==> page[i] != page[j] && Deadline(w, page[i]) <= Deadline(w, page[j]))
    && (forall i, id :: 0 <= i < |page| && id in backlog && id !in page ==> Deadline(w, page[i]) <= Deadline(w, id))
  }

  method Oldest(w: World, ids: set<nat>) returns (oldest: nat)
    requires ids != {}
    ensures oldest in ids && forall id :: id in ids ==> Deadline(w, oldest) <= Deadline(w, id)
  {
    oldest :| oldest in ids;
    var todo := ids - {oldest};
    while todo != {}
      invariant oldest in ids && todo <= ids
      invariant forall id :: id in ids && id !in todo ==> Deadline(w, oldest) <= Deadline(w, id)
      decreases |todo|
    {
      var id :| id in todo;
      todo := todo - {id};
      if Deadline(w, id) < Deadline(w, oldest) {
        oldest := id;
      }
    }
  }

  method SelectPage(w: World, backlog: set<nat>, limit: nat) returns (page: seq<nat>)
    ensures IsPage(w, backlog, limit, page)
  {
    page := [];
    var todo := backlog;
    while todo != {} && |page| < limit
      invariant |page| <= limit && |page| + |todo| == |backlog| && todo <= backlog
      invariant forall id :: id in backlog <==> id in todo || id in page
      invariant forall i :: 0 <= i < |page| ==> page[i] in backlog && page[i] !in todo
      invariant forall i, j :: 0 <= i < j < |page| ==>
                page[i] != page[j] && Deadline(w, page[i]) <= Deadline(w, page[j])
      invariant forall i, id :: 0 <= i < |page| && id in todo ==> Deadline(w, page[i]) <= Deadline(w, id)
      decreases |todo|
    {
      var id := Oldest(w, todo);
      page := page + [id];
      todo := todo - {id};
    }
  }

  function Announce(targets: seq<nat>, id: nat, dueAt: int): seq<Delivery> {
    if targets == [] then []
    else Announce(targets[..|targets| - 1], id, dueAt) + [Delivery(targets[|targets| - 1], id, dueAt)]
  }

  function Announcements(w: World, page: seq<nat>): seq<Delivery> {
    if page == [] then []
    else
      var id := page[|page| - 1];
      Announcements(w, page[..|page| - 1]) +
      (if id in w.rows then Announce(Targets(w, w.rows[id]), id, Deadline(w, id)) else [])
  }

  /** Queue one finding's announcements. */
  method QueueFor(targets: seq<nat>, id: nat, dueAt: int, outbox: seq<Delivery>) returns (after: seq<Delivery>)
    ensures after == outbox + Announce(targets, id, dueAt)
  {
    after := outbox;
    for k := 0 to |targets|
      invariant after == outbox + Announce(targets[..k], id, dueAt)
    {
      assert targets[..k + 1][..k] == targets[..k];
      after := after + [Delivery(targets[k], id, dueAt)];
    }
    assert targets[..|targets|] == targets;
  }

  lemma AnnouncementsStep(w: World, page: seq<nat>, n: nat)
    requires n < |page| && page[n] in w.rows
    ensures Announcements(w, page[..n + 1]) ==
            Announcements(w, page[..n]) + Announce(Targets(w, w.rows[page[n]]), page[n], Deadline(w, page[n]))
  {
    assert page[..n + 1][..n] == page[..n];
  }

  /** Queue a whole page. */
  method QueuePage(w: World, page: seq<nat>, outbox: seq<Delivery>) returns (after: seq<Delivery>)
    requires forall i :: 0 <= i < |page| ==> page[i] in w.rows && w.rows[page[i]].dueAt.Some?
    ensures after == outbox + Announcements(w, page)
  {
    after := outbox;
    for n := 0 to |page|
      invariant after == outbox + Announcements(w, page[..n])
    {
      AnnouncementsStep(w, page, n);
      var f := w.rows[page[n]];
      after := QueueFor(Targets(w, f), page[n], f.dueAt.value, after);
    }
    assert page[..|page|] == page;
  }

  /** One maintenance beat. */
  method EscalateOverdue(w: World, outbox: seq<Delivery>, at: int, limit: nat)
    returns (after: seq<Delivery>, queued: nat, page: seq<nat>)
    ensures IsPage(w, Backlog(w, outbox, at), limit, page)
    ensures after == outbox + Announcements(w, page) && queued == |after| - |outbox|
  {
    page := SelectPage(w, Backlog(w, outbox, at), limit);
    after := QueuePage(w, page, outbox);
    queued := |after| - |outbox|;
  }

  // ----- what a beat writes -----

  lemma {:induction false} AnnounceIs(targets: seq<nat>, id: nat, dueAt: int, d: Delivery)
    ensures d in Announce(targets, id, dueAt) <==> d.finding == id && d.dueAt == dueAt && d.channel in targets
  {
    if targets != [] {
      AnnounceIs(targets[..|targets| - 1], id, dueAt, d);
      assert targets == targets[..|targets| - 1] + [targets[|targets| - 1]];
    }
  }

  /** The announcements of a page: each of its findings, to each of its targets, for its deadline. */
  lemma {:induction false} AnnouncementsAre(w: World, page: seq<nat>, d: Delivery)
    ensures d in Announcements(w, page) <==>
            d.finding in page && d.finding in w.rows && d.dueAt == Deadline(w, d.finding)
            && d.channel in Targets(w, w.rows[d.finding])
  {
    if page != [] {
      var id := page[|page| - 1];
      AnnouncementsAre(w, page[..|page| - 1], d);
      assert page == page[..|page| - 1] + [id];
      if id in w.rows { AnnounceIs(Targets(w, w.rows[id]), id, Deadline(w, id), d); }
    }
  }

  ghost predicate SoundReferences(w: World) {
    WellKeyed(w) && forall id :: id in w.rows ==> !Dangling(w, w.rows[id])
  }

  lemma EscalatedInEither(a: seq<Delivery>, b: seq<Delivery>, id: nat, f: Finding)
    ensures Escalated(a + b, id, f) <==> Escalated(a, id, f) || Escalated(b, id, f)
  {
    var all := a + b;
    if Escalated(a, id, f) {
      var i :| 0 <= i < |a| && a[i].finding == id && a[i].dueAt == f.dueAt.value;
      assert all[i] == a[i];
    }
    if Escalated(b, id, f) {
      var i :| 0 <= i < |b| && b[i].finding == id && b[i].dueAt == f.dueAt.value;
      assert all[|a| + i] == b[i];
    }
    if Escalated(all, id, f) {
      var i :| 0 <= i < |all| && all[i].finding == id && all[i].dueAt == f.dueAt.value;
      assert if i < |a| then all[i] == a[i] else all[i] == b[i - |a|];
    }
  }

  lemma MemberIsEscalated(outbox: seq<Delivery>, d: Delivery, f: Finding)
    requires f.dueAt == Some(d.dueAt)
    ensures d in outbox ==> Escalated(outbox, d.finding, f)
  {
    if d in outbox {
      var i :| 0 <= i < |outbox| && outbox[i] == d;
      assert outbox[i].finding == d.finding;
    }
  }

  /** Where a target exists, a page announces exactly its own findings. */
  lemma PageIsEscalated(w: World, page: seq<nat>, id: nat)
    requires SoundReferences(w) && id in w.rows && w.rows[id].dueAt.Some? && HasTarget(w, w.rows[id])
    ensures Escalated(Announcements(w, page), id, w.rows[id]) <==> id in page
  {
    var f, more := w.rows[id], Announcements(w, page);
    TargetReadingsAgreeIff(w, f);
    var d := Delivery(Targets(w, f)[0], id, Deadline(w, id));
    AnnouncementsAre(w, page, d);
    MemberIsEscalated(more, d, f);
    if Escalated(more, id, f) {
      var i :| 0 <= i < |more| && more[i].finding == id && more[i].dueAt == f.dueAt.value;
      AnnouncementsAre(w, page, more[i]);
      assert more[i] in more;
    }
  }

  lemma LeftAfterBeat(w: World, outbox: seq<Delivery>, at: int, page: seq<nat>, id: nat)
    requires SoundReferences(w)
    ensures id in Backlog(w, outbox + Announcements(w, page), at) <==> id in Backlog(w, outbox, at) && id !in page
  {
    if id in w.rows && Overdue(w.rows[id], at) && HasTarget(w, w.rows[id]) {
      EscalatedInEither(outbox, Announcements(w, page), id, w.rows[id]);
      PageIsEscalated(w, page, id);
    }
  }

  function SetOf(page: seq<nat>): set<nat> {
    set id | id in page
  }

  lemma {:induction false} PageSize(page: seq<nat>)
    requires forall i, j :: 0 <= i < j < |page| ==> page[i] != page[j]
    ensures |SetOf(page)| == |page|
  {
    if page != [] {
      var rest, last := page[..|page| - 1], page[|page| - 1];
      PageSize(rest);
      assert page == rest + [last];
      assert SetOf(page) == SetOf(rest) + {last};
    }
  }

  lemma TakenFrom(backlog: set<nat>, left: set<nat>, page: seq<nat>)
    requires forall i, j :: 0 <= i < j < |page| ==> page[i] != page[j]
    requires forall i :: 0 <= i < |page| ==> page[i] in backlog
    requires forall id :: id in left <==> id in backlog && id !in page
    ensures |left| == |backlog| - |page|
  {
    PageSize(page);
    assert SetOf(page) <= backlog && left == backlog - SetOf(page);
  }

  /** A beat takes exactly its page off the backlog: `limit` of it, or all of it. */
  lemma BeatRetiresItsPage(w: World, outbox: seq<Delivery>, at: int, limit: nat, page: seq<nat>)
    requires SoundReferences(w) && IsPage(w, Backlog(w, outbox, at), limit, page)
    ensures var left := Backlog(w, outbox + Announcements(w, page), at);
            && (forall id :: id in left <==> id in Backlog(w, outbox, at) && id !in page)
            && |left| == if |Backlog(w, outbox, at)| < limit then 0 else |Backlog(w, outbox, at)| - limit
  {
    var backlog := Backlog(w, outbox, at);
    var left := Backlog(w, outbox + Announcements(w, page), at);
    forall id ensures id in left <==> id in backlog && id !in page {
      LeftAfterBeat(w, outbox, at, page, id);
    }
    TakenFrom(backlog, left, page);
  }

  // ----- whole runs of beats -----

  ghost predicate IsBeat(w: World, before: seq<Delivery>, after: seq<Delivery>, at: int, limit: nat) {
    exists page :: IsPage(w, Backlog(w, before, at), limit, page) && after == before + Announcements(w, page)
  }

  /** Consecutive beats over findings that do not change. */
  ghost predicate Beats(w: World, outboxes: seq<seq<Delivery>>, at: int, limit: nat) {
    outboxes != [] && forall i :: 0 < i < |outboxes| ==> IsBeat(w, outboxes[i - 1], outboxes[i], at, limit)
  }

  function Remaining(backlog: nat, beats: nat, limit: nat): nat {
    if beats * limit < backlog then backlog - beats * limit else 0
  }

  lemma RemainingStep(backlog: nat, beats: nat, limit: nat)
    ensures Remaining(backlog, beats + 1, limit) == Remaining(Remaining(backlog, beats, limit), 1, limit)
  {
    assert (beats + 1) * limit == beats * limit + limit;
  }

  /** A fixed backlog drains by `limit` per beat until it is gone. */
  lemma {:induction false} BacklogDrains(w: World, outboxes: seq<seq<Delivery>>, at: int, limit: nat)
    requires SoundReferences(w) && Beats(w, outboxes, at, limit)
    ensures |Backlog(w, outboxes[|outboxes| - 1], at)| ==
            Remaining(|Backlog(w, outboxes[0], at)|, |outboxes| - 1, limit)
  {
    if |outboxes| > 1 {
      var n := |outboxes| - 1;
      var before := outboxes[..n];
      BacklogDrains(w, before, at, limit);
      assert IsBeat(w, outboxes[n - 1], outboxes[n], at, limit);
      var page :| IsPage(w, Backlog(w, outboxes[n - 1], at), limit, page) &&
          outboxes[n] == outboxes[n - 1] + Announcements(w, page);
      BeatRetiresItsPage(w, outboxes[n - 1], at, limit, page);
      RemainingStep(|Backlog(w, outboxes[0], at)|, n - 1, limit);
    }
  }

  /** The finding's present deadline has been announced to its targets and to no other channel. */
  ghost predicate AnnouncedExactly(w: World, outbox: seq<Delivery>, id: nat) {
    id in w.rows && forall c :: Delivery(c, id, Deadline(w, id)) in outbox <==> c in Targets(w, w.rows[id])
  }

  lemma AnnouncedByPage(w: World, outbox: seq<Delivery>, at: int, page: seq<nat>, id: nat)
    requires id in Backlog(w, outbox, at) && id in page
    ensures AnnouncedExactly(w, outbox + Announcements(w, page), id)
  {
    forall c ensures Delivery(c, id, Deadline(w, id)) in outbox + Announcements(w, page) <==>
        c in Targets(w, w.rows[id]) {
      MemberIsEscalated(outbox, Delivery(c, id, Deadline(w, id)), w.rows[id]);
      AnnouncementsAre(w, page, Delivery(c, id, Deadline(w, id)));
    }
  }

  lemma AnnouncedStays(w: World, outbox: seq<Delivery>, at: int, limit: nat, page: seq<nat>, id: nat)
    requires SoundReferences(w) && id in w.rows && w.rows[id].dueAt.Some? && HasTarget(w, w.rows[id])
    requires IsPage(w, Backlog(w, outbox, at), limit, page) && AnnouncedExactly(w, outbox, id)
    ensures AnnouncedExactly(w, outbox + Announcements(w, page), id)
  {
    var f := w.rows[id];
    TargetReadingsAgreeIff(w, f);
    var first := Targets(w, f)[0];
    assert first in Targets(w, f);
    MemberIsEscalated(outbox, Delivery(first, id, Deadline(w, id)), f);
    assert id !in Backlog(w, outbox, at);
    forall c ensures Delivery(c, id, Deadline(w, id)) in outbox + Announcements(w, page) <==> c in Targets(w, f) {
      AnnouncementsAre(w, page, Delivery(c, id, Deadline(w, id)));
    }
  }

  /** A finding of the backlog waits its turn and is then announced once to each of its targets. */
  lemma {:induction false} EachIsAnnounced(w: World, outboxes: seq<seq<Delivery>>, at: int, limit: nat, id: nat)
    requires SoundReferences(w) && Beats(w, outboxes, at, limit) && id in Backlog(w, outboxes[0], at)
    ensures id in Backlog(w, outboxes[|outboxes| - 1], at) || AnnouncedExactly(w, outboxes[|outboxes| - 1], id)
  {
    if |outboxes| > 1 {
      var n := |outboxes| - 1;
      EachIsAnnounced(w, outboxes[..n], at, limit, id);
      assert IsBeat(w, outboxes[n - 1], outboxes[n], at, limit);
      var page :| IsPage(w, Backlog(w, outboxes[n - 1], at), limit, page) &&
          outboxes[n] == outboxes[n - 1] + Announcements(w, page);
      if id in Backlog(w, outboxes[n - 1], at) {
        if id in page {
          AnnouncedByPage(w, outboxes[n - 1], at, page, id);
        } else {
          LeftAfterBeat(w, outboxes[n - 1], at, page, id);
        }
      } else {
        AnnouncedStays(w, outboxes[n - 1], at, limit, page, id);
      }
    }
  }

  // ----- once per channel, finding and deadline -----

  ghost predicate NoRepeats(outbox: seq<Delivery>) {
    forall i, j :: 0 <= i < j < |outbox| ==> outbox[i] != outbox[j]
  }

  lemma {:induction false} TargetsDiffer(channels: seq<Channel>, f: Finding)
    requires forall i, j :: 0 <= i < j < |channels| ==> channels[i].id != channels[j].id
    ensures forall i, j :: 0 <= i < j < |Wanting(channels, f)| ==> Wanting(channels, f)[i] != Wanting(channels, f)[j]
  {
    if channels != [] {
      var rest, last := channels[..|channels| - 1], channels[|channels| - 1];
      TargetsDiffer(rest, f);
      WantingIs(rest, f);
      forall i | 0 <= i < |Wanting(rest, f)| ensures Wanting(rest, f)[i] != last.id {
        assert Wanting(rest, f)[i] in Wanting(rest, f);
        var k :| 0 <= k < |rest| && rest[k].id == Wanting(rest, f)[i];
        assert channels[k].id != channels[|channels| - 1].id;
      }
    }
  }

  lemma {:induction false} AnnounceDiffers(targets: seq<nat>, id: nat, dueAt: int)
    requires forall i, j :: 0 <= i < j < |targets| ==> targets[i] != targets[j]
    ensures NoRepeats(Announce(targets, id, dueAt))
  {
    if targets != [] {
      var rest, last := targets[..|targets| - 1], targets[|targets| - 1];
      AnnounceDiffers(rest, id, dueAt);
      AnnounceIs(rest, id, dueAt, Delivery(last, id, dueAt));
    }
  }

  lemma JoinNoRepeats(a: seq<Delivery>, b: seq<Delivery>)
    requires NoRepeats(a) && NoRepeats(b) && forall d :: d in b ==> d !in a
    ensures NoRepeats(a + b)
  {
    forall i, j | 0 <= i < j < |a + b| ensures (a + b)[i] != (a + b)[j] {
      if i < |a| <= j { assert b[j - |a|] in b; }
    }
  }

  lemma {:induction false} AnnouncementsDiffer(w: World, page: seq<nat>)
    requires WellKeyed(w) && forall i, j :: 0 <= i < j < |page| ==> page[i] != page[j]
    ensures NoRepeats(Announcements(w, page))
  {
    if page != [] {
      var rest, id := page[..|page| - 1], page[|page| - 1];
      AnnouncementsDiffer(w, rest);
      if id in w.rows {
        var f := w.rows[id];
        TargetsDiffer(w.channels, f);
        AnnounceDiffers(Targets(w, f), id, Deadline(w, id));
        forall d | d in Announce(Targets(w, f), id, Deadline(w, id)) ensures d !in Announcements(w, rest) {
          AnnounceIs(Targets(w, f), id, Deadline(w, id), d);
          AnnouncementsAre(w, rest, d);
        }
        JoinNoRepeats(Announcements(w, rest), Announce(Targets(w, f), id, Deadline(w, id)));
      }
    }
  }

  /**
   No beat queues a channel, finding and deadline that is already in the outbox, whatever
   findings, channels and groups have become since the last one.
   */
  lemma BeatNeverRepeats(w: World, outbox: seq<Delivery>, at: int, limit: nat, page: seq<nat>)
    requires WellKeyed(w) && NoRepeats(outbox) && IsPage(w, Backlog(w, outbox, at), limit, page)
    ensures NoRepeats(outbox + Announcements(w, page))
  {
    AnnouncementsDiffer(w, page);
    forall d | d in Announcements(w, page) ensures d !in outbox {
      AnnouncementsAre(w, page, d);
      assert d.finding in Backlog(w, outbox, at);
      MemberIsEscalated(outbox, d, w.rows[d.finding]);
    }
    JoinNoRepeats(outbox, Announcements(w, page));
  }

  datatype Beat = Beat(world: World, at: int, limit: nat, page: seq<nat>)

  ghost function OutboxAfter(beats: seq<Beat>): seq<Delivery> {
    if beats == [] then []
    else OutboxAfter(beats[..|beats| - 1]) + Announcements(beats[|beats| - 1].world, beats[|beats| - 1].page)
  }

  ghost predicate ProperBeats(beats: seq<Beat>) {
    beats == [] ||
    (var last := beats[|beats| - 1];
     && ProperBeats(beats[..|beats| - 1]) && WellKeyed(last.world)
     && IsPage(last.world, Backlog(last.world, OutboxAfter(beats[..|beats| - 1]), last.at), last.limit, last.page))
  }

  /** Over every run of beats, through every change of the world in between, nothing is queued twice. */
  lemma {:induction false} NothingIsQueuedTwice(beats: seq<Beat>)
    requires ProperBeats(beats)
    ensures NoRepeats(OutboxAfter(beats))
  {
    if beats != [] {
      var last := beats[|beats| - 1];
      NothingIsQueuedTwice(beats[..|beats| - 1]);
      BeatNeverRepeats(last.world, OutboxAfter(beats[..|beats| - 1]), last.at, last.limit, last.page);
    }
  }
}
