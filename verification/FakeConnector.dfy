/**
 A concrete resumable fetch over a list of pages, and the proof that it keeps the contract
 the batch protocol rests on: the checkpoint visible when a unit arrives names exactly the
 work before that unit.
 */
module FakeConnector {
  import opened Basics
  import opened Coverage
  import opened BatchProtocol
  import opened ProtocolInvariant
  import opened ProtocolTheorems

  /** A resource of the source, with what scanning it would produce. */
  datatype Page = Page(resourceId: string, skip: bool, unreadable: bool, reference: Option<string>,
                       mark: seq<Op>, candidates: seq<Candidate>, truncated: nat, dropped: nat)

  datatype Checkpoint = Checkpoint(version: string, after: Option<string>)

  const FAKE_CHECKPOINT_VERSION: string := "1"

  /** The resource the last attempt finished on, if the stored checkpoint can be trusted. */
  function ResumeAfter(resumable: bool, resume: Option<Checkpoint>): Option<string> {
    if !resumable || resume.None? || resume.value.version != FAKE_CHECKPOINT_VERSION then None
    else if resume.value.after.None? || resume.value.after.value == "" then None
    else resume.value.after
  }

  predicate Readable(p: Page) {
    !p.skip && !p.unreadable
  }

  function Recorded(p: Page): Op {
    if p.skip then Skip(UnsupportedType, Record, p.reference)
    else if p.unreadable then Fail(ConnectorError, Record, p.reference)
    else Scan
  }

  function UnitOf(p: Page, ops: seq<Op>): Unit {
    Unit(ops, p.mark, p.candidates, p.truncated, p.dropped)
  }

  /** The pages after the first one with this id; none at all when no page has it. */
  function After(pages: seq<Page>, id: string): seq<Page> {
    if pages == [] then []
    else if pages[0].resourceId == id then pages[1..]
    else After(pages[1..], id)
  }

  function Remaining(pages: seq<Page>, after: Option<string>): seq<Page> {
    if after.None? then pages else After(pages, after.value)
  }

  /** A whole fetch as work: each unit with what was recorded since the unit before it. */
  function Cut(pages: seq<Page>, carry: seq<Op>): Work {
    if pages == [] then Work([], carry)
    else
      var ops := carry + [Recorded(pages[0])];
      if Readable(pages[0]) then
        var rest := Cut(pages[1..], []);
        Work([UnitOf(pages[0], ops)] + rest.units, rest.tail)
      else Cut(pages[1..], ops)
  }

  function WorkOf(pages: seq<Page>): Work {
    Cut(pages, [])
  }

  /** The ids of the pages that are yielded, in order. */
  function YieldedIds(pages: seq<Page>): seq<string> {
    if pages == [] then []
    else (if Readable(pages[0]) then [pages[0].resourceId] else []) + YieldedIds(pages[1..])
  }

  /** The checkpoint published when the unit at position `k` arrives. */
  function VisibleAt(pages: seq<Page>, k: nat): Option<Checkpoint>
    requires k <= |YieldedIds(pages)|
  {
    if k == 0 then None else Some(Checkpoint(FAKE_CHECKPOINT_VERSION, Some(YieldedIds(pages)[k - 1])))
  }

  function Published(left: seq<Page>, resumable: bool, k: nat): Option<Checkpoint>
    requires k <= |YieldedIds(left)|
  {
    if resumable then VisibleAt(left, k) else None
  }

  /** What the fetch loop has done of `left` when `todo` is what it has not looked at yet. */
  ghost predicate Fetched(left: seq<Page>, todo: seq<Page>, units: seq<Unit>, tail: seq<Op>) {
    && WorkOf(left) == Work(units + Cut(todo, tail).units, Cut(todo, tail).tail)
    && |units| <= |YieldedIds(left)|
    && YieldedIds(left)[|units|..] == YieldedIds(todo)
  }

  lemma FetchedStart(left: seq<Page>)
    ensures Fetched(left, left, [], [])
  {
    assert [] + WorkOf(left).units == WorkOf(left).units;
  }

  lemma FetchedStep(left: seq<Page>, todo: seq<Page>, units: seq<Unit>, tail: seq<Op>)
    requires todo != [] && Fetched(left, todo, units, tail)
    ensures var ops := tail + [Recorded(todo[0])];
            if Readable(todo[0]) then
              && Fetched(left, todo[1..], units + [UnitOf(todo[0], ops)], [])
              && YieldedIds(left)[|units|] == todo[0].resourceId
            else Fetched(left, todo[1..], units, ops)
  {
    var ops, ids := tail + [Recorded(todo[0])], YieldedIds(left);
    if Readable(todo[0]) {
      var u, rest := UnitOf(todo[0], ops), Cut(todo[1..], []);
      assert units + ([u] + rest.units) == units + [u] + rest.units;
      assert ids[|units|] == ids[|units|..][0];
      assert ids[|units| + 1..] == ids[|units|..][1..];
    }
  }

  lemma FetchedAll(left: seq<Page>, units: seq<Unit>, tail: seq<Op>)
    requires Fetched(left, [], units, tail)
    ensures WorkOf(left) == Work(units, tail) && |units| == |YieldedIds(left)|
  {
    assert units + [] == units;
  }

  /** Each unit was yielded with the checkpoint that names the units before it. */
  ghost predicate Paired(left: seq<Page>, resumable: bool, visible: seq<Option<Checkpoint>>) {
    && |visible| <= |YieldedIds(left)|
    && forall k :: 0 <= k < |visible| ==> visible[k] == Published(left, resumable, k)
  }

  lemma PairedStep(left: seq<Page>, resumable: bool, visible: seq<Option<Checkpoint>>)
    requires Paired(left, resumable, visible) && |visible| < |YieldedIds(left)|
    ensures Paired(left, resumable, visible + [Published(left, resumable, |visible|)])
  {
  }

  /**
   The fetch loop. It yields the units of the remaining pages in order, each with the
   checkpoint visible at that moment, and leaves the trailing records behind. A connector that
   is not resumable starts over and publishes nothing.
   */
  method Fetch(pages: seq<Page>, resumable: bool, resume: Option<Checkpoint>)
    returns (units: seq<Unit>, visible: seq<Option<Checkpoint>>, tail: seq<Op>)
    ensures Work(units, tail) == WorkOf(Remaining(pages, ResumeAfter(resumable, resume)))
    ensures |visible| == |units| == |YieldedIds(Remaining(pages, ResumeAfter(resumable, resume)))|
    ensures Paired(Remaining(pages, ResumeAfter(resumable, resume)), resumable, visible)
  {
    var skipUntil := ResumeAfter(resumable, resume);
    ghost var left := Remaining(pages, skipUntil);
    units, visible, tail := [], [], [];
    var published: Option<Checkpoint> := None;
    assert pages[0..] == pages;
    FetchedStart(left);
    for n := 0 to |pages|
      invariant skipUntil.Some? ==> units == [] && tail == [] && left == After(pages[n..], skipUntil.value)
      invariant skipUntil.None? ==> Fetched(left, pages[n..], units, tail)
      invariant |visible| == |units| && Paired(left, resumable, visible)
      invariant published == Published(left, resumable, |visible|)
    {
      var page := pages[n];
      assert pages[n..][0] == page && pages[n..][1..] == pages[n + 1..];
      if skipUntil.Some? {
        if page.resourceId == skipUntil.value {
          skipUntil := None;
          FetchedStart(left);
        }
      } else {
        FetchedStep(left, pages[n..], units, tail);
        tail := tail + [Recorded(page)];
        if Readable(page) {
          PairedStep(left, resumable, visible);
          units, visible := units + [UnitOf(page, tail)], visible + [published];
          tail := [];
          if resumable {
            published := Some(Checkpoint(FAKE_CHECKPOINT_VERSION, Some(page.resourceId)));
          }
        }
      }
    }
    assert pages[|pages|..] == [];
    if skipUntil.Some? {
      FetchedStart(left);
    }
    FetchedAll(left, units, tail);
  }

  predicate DistinctIds(pages: seq<Page>) {
    forall i, j :: 0 <= i < j < |pages| ==> pages[i].resourceId != pages[j].resourceId
  }

  lemma {:induction false} YieldedAreListed(pages: seq<Page>, carry: seq<Op>)
    ensures |YieldedIds(pages)| == |Cut(pages, carry).units|
    ensures forall id :: id in YieldedIds(pages) ==> exists i :: 0 <= i < |pages| && pages[i].resourceId == id
  {
    if pages != [] {
      YieldedAreListed(pages[1..], if Readable(pages[0]) then [] else carry + [Recorded(pages[0])]);
      forall id | id in YieldedIds(pages) ensures exists i :: 0 <= i < |pages| && pages[i].resourceId == id {
        if id in YieldedIds(pages[1..]) {
          var i :| 0 <= i < |pages[1..]| && pages[1..][i].resourceId == id;
          assert pages[i + 1].resourceId == id;
        } else {
          assert pages[0].resourceId == id;
        }
      }
    }
  }

  /** Dropping through the id of the `k`-th yielded page leaves exactly the units from `k` on. */
  lemma {:induction false} ResumeIsDrop(pages: seq<Page>, carry: seq<Op>, k: nat)
    requires DistinctIds(pages) && 0 < k <= |YieldedIds(pages)|
    ensures |YieldedIds(pages)| == |Cut(pages, carry).units|
    ensures WorkOf(After(pages, YieldedIds(pages)[k - 1])) ==
            Work(Cut(pages, carry).units[k..], Cut(pages, carry).tail)
  {
    YieldedAreListed(pages, carry);
    var page, rest, id := pages[0], pages[1..], YieldedIds(pages)[k - 1];
    var ops := carry + [Recorded(page)];
    if !Readable(page) {
      assert id == YieldedIds(rest)[k - 1];
      NotFirst(pages, id);
      ResumeIsDrop(rest, ops, k);
    } else if k == 1 {
      assert ([UnitOf(page, ops)] + Cut(rest, []).units)[1..] == Cut(rest, []).units;
    } else {
      assert id == YieldedIds(rest)[k - 2];
      NotFirst(pages, id);
      ResumeIsDrop(rest, [], k - 1);
      DropFirst(UnitOf(page, ops), Cut(rest, []).units, k);
    }
  }

  lemma DropFirst(u: Unit, us: seq<Unit>, k: nat)
    requires 0 < k <= |us| + 1
    ensures ([u] + us)[k..] == us[k - 1..]
  {
  }

  lemma NotFirst(pages: seq<Page>, id: string)
    requires DistinctIds(pages) && pages != [] && id in YieldedIds(pages[1..])
    ensures pages[0].resourceId != id
  {
    YieldedAreListed(pages[1..], []);
    var i :| 0 <= i < |pages[1..]| && pages[1..][i].resourceId == id;
    assert pages[0].resourceId != pages[i + 1].resourceId;
  }

  /**
   The connector contract: with distinct, non-empty ids, resuming from the checkpoint visible
   when a unit arrives yields that unit and everything after it, records included.
   */
  lemma ResumeYieldsTheRest(pages: seq<Page>, k: nat)
    requires DistinctIds(pages) && forall i :: 0 <= i < |pages| ==> pages[i].resourceId != ""
    requires k <= |YieldedIds(pages)|
    ensures |YieldedIds(pages)| == |WorkOf(pages).units|
    ensures WorkOf(Remaining(pages, ResumeAfter(true, VisibleAt(pages, k)))) ==
            Work(WorkOf(pages).units[k..], WorkOf(pages).tail)
  {
    YieldedAreListed(pages, []);
    if k > 0 {
      assert YieldedIds(pages)[k - 1] in YieldedIds(pages);
      ResumeIsDrop(pages, [], k);
    }
  }

  lemma OpsFirst(u: Unit, us: seq<Unit>)
    ensures OpsOf([u] + us) == u.ops + u.mark + OpsOf(us)
  {
    OpsConcat([u], us);
    assert [u][..0] == [];
  }

  lemma SplitCoverage(all: seq<Op>, done: seq<Op>, rest: seq<Op>, tail: seq<Op>)
    requires all == done + rest
    ensures Merge(Some(Payload(done)), Payload(rest + tail)) == Payload(all + tail)
  {
    assert all + tail == done + (rest + tail);
    MergePayloads(done, rest + tail);
  }

  /**
   Coverage at a boundary plus the coverage of a resumed run is the coverage of the full run,
   skipped and failed pages included.
   */
  lemma ResumedCoverageAddsUp(pages: seq<Page>, k: nat)
    requires DistinctIds(pages) && forall i :: 0 <= i < |pages| ==> pages[i].resourceId != ""
    requires k <= |YieldedIds(pages)| == |WorkOf(pages).units|
    ensures var full := WorkOf(pages);
            var resumed := WorkOf(Remaining(pages, ResumeAfter(true, VisibleAt(pages, k))));
            Merge(Some(Payload(OpsOf(full.units[..k]))), Payload(OpsOf(resumed.units) + resumed.tail)) ==
            Payload(OpsOf(full.units) + full.tail)
  {
    ResumeYieldsTheRest(pages, k);
    var full := WorkOf(pages);
    assert full.units == full.units[..k] + full.units[k..];
    OpsConcat(full.units[..k], full.units[k..]);
    SplitCoverage(OpsOf(full.units), OpsOf(full.units[..k]), OpsOf(full.units[k..]), full.tail);
  }

  /** A checkpoint that names no listed page resumes past everything. */
  lemma {:induction false} UnknownCheckpointSkipsAll(pages: seq<Page>, id: string)
    requires forall i :: 0 <= i < |pages| ==> pages[i].resourceId != id
    ensures WorkOf(After(pages, id)) == Work([], [])
  {
    if pages != [] {
      assert pages[0].resourceId != id;
      UnknownCheckpointSkipsAll(pages[1..], id);
    }
  }

  /** What scanning may record about a page on top of its scan. */
  predicate PageOk(p: Page) {
    && (p.reference.Some? ==> IsDigest(p.reference.value))
    && (p.mark == [] || p.mark == [Truncate(OutputLimit, Record, p.reference)])
  }

  /** Page lists are work the batch protocol accepts. */
  lemma {:induction false} PagesMakeWork(pages: seq<Page>, carry: seq<Op>)
    requires forall i :: 0 <= i < |pages| ==> PageOk(pages[i])
    requires WholeUnits(carry)
    ensures WellFormed(Cut(pages, carry))
  {
    if pages != [] {
      var page := pages[0];
      assert PageOk(page);
      RecordedIsWhole(page);
      WholeUnitsConcat(carry, [Recorded(page)]);
      if Readable(page) {
        NothingIsWhole([]);
        PagesMakeWork(pages[1..], []);
        MarkedIsWhole(carry, page);
        var w := Cut(pages, carry);
        assert w.units[0].ops + w.units[0].mark == carry + [Recorded(page)] + page.mark;
        assert forall i :: 0 < i < |w.units| ==> w.units[i] == Cut(pages[1..], []).units[i - 1];
      } else {
        PagesMakeWork(pages[1..], carry + [Recorded(page)]);
      }
    }
  }

  lemma NothingIsWhole(ops: seq<Op>)
    requires ops == []
    ensures WholeUnits(ops)
  {
  }

  lemma RecordedIsWhole(page: Page)
    requires PageOk(page)
    ensures WholeUnits([Recorded(page)])
  {
    assert [Recorded(page)][..0] == [];
  }

  lemma MarkedIsWhole(carry: seq<Op>, page: Page)
    requires PageOk(page) && Readable(page) && WholeUnits(carry)
    ensures WholeUnits(carry + [Recorded(page)] + page.mark)
  {
    var marked := [Recorded(page)] + page.mark;
    assert carry + [Recorded(page)] + page.mark == carry + marked;
    assert marked[..|marked| - 1] == if page.mark == [] then [] else [Scan];
    assert [Scan][..0] == [] && Sum(Scanned, [Scan]) == 1;
    assert Sum(Scanned, marked) == if page.mark == [] then 1 else 0;
    WholeUnitsConcat(carry, marked);
  }

  /** The checkpoint stored for position `k` by a connector that spoke this version. */
  function StoredAt(pages: seq<Page>, version: string, k: nat): Option<Checkpoint>
    requires k <= |YieldedIds(pages)|
  {
    if k == 0 then None else Some(Checkpoint(version, Some(YieldedIds(pages)[k - 1])))
  }

  /**
   A fetch starts exactly where the protocol model has a new attempt start: at the leased
   position, or from the top when the position was stored under a version it does not speak.
   */
  lemma VersionDecidesTheStart(pages: seq<Page>, version: string, k: nat, number: nat, suppressed: set<Candidate>,
                               sequence: nat)
    requires DistinctIds(pages) && forall i :: 0 <= i < |pages| ==> pages[i].resourceId != ""
    requires k <= |YieldedIds(pages)|
    ensures |YieldedIds(pages)| == |WorkOf(pages).units|
    ensures var a := NewAttempt(number, suppressed, k, sequence, version != FAKE_CHECKPOINT_VERSION);
            WorkOf(Remaining(pages, ResumeAfter(true, StoredAt(pages, version, k)))) ==
            Work(WorkOf(pages).units[a.start..], WorkOf(pages).tail)
  {
    ResumeYieldsTheRest(pages, if version == FAKE_CHECKPOINT_VERSION then k else 0);
    if version == FAKE_CHECKPOINT_VERSION {
      assert StoredAt(pages, version, k) == VisibleAt(pages, k);
    }
  }

  // ----- a whole scan of pages -----

  /** What one uninterrupted pass over the pages records. */
  function PageOps(pages: seq<Page>): seq<Op> {
    if pages == [] then []
    else [Recorded(pages[0])] + (if Readable(pages[0]) then pages[0].mark else []) + PageOps(pages[1..])
  }

  lemma {:induction false} CutOps(pages: seq<Page>, carry: seq<Op>)
    ensures OpsOf(Cut(pages, carry).units) + Cut(pages, carry).tail == carry + PageOps(pages)
  {
    if pages != [] {
      var page, ops := pages[0], carry + [Recorded(pages[0])];
      if Readable(page) {
        var rest := Cut(pages[1..], []);
        CutOps(pages[1..], []);
        OpsFirst(UnitOf(page, ops), rest.units);
        CutStep(ops, page.mark, OpsOf(rest.units), rest.tail, PageOps(pages[1..]));
        assert carry + ([Recorded(page)] + page.mark + PageOps(pages[1..])) == ops + page.mark + PageOps(pages[1..]);
      } else {
        CutOps(pages[1..], ops);
        assert carry + ([Recorded(page)] + [] + PageOps(pages[1..])) == ops + PageOps(pages[1..]);
      }
    }
  }

  lemma CutStep(ops: seq<Op>, mark: seq<Op>, units: seq<Op>, tail: seq<Op>, rest: seq<Op>)
    requires units + tail == [] + rest
    ensures ops + mark + units + tail == ops + mark + rest
  {
    assert ops + mark + units + tail == ops + mark + (units + tail);
  }

  lemma {:induction false} PageIsRecorded(pages: seq<Page>, i: nat)
    requires i < |pages|
    ensures Recorded(pages[i]) in PageOps(pages)
    ensures Readable(pages[i]) ==> forall op :: op in pages[i].mark ==> op in PageOps(pages)
  {
    if i > 0 {
      assert pages[i] == pages[1..][i - 1];
      PageIsRecorded(pages[1..], i - 1);
    }
  }

  /**
   A scan of the pages that is recorded as completed, however often it was interrupted and
   resumed, stored the coverage of one uninterrupted pass, if no lease restarted it; and every
   page was either skipped by policy or read to its end.
   */
  lemma CompletedScanReadEveryPage(pages: seq<Page>, steps: seq<Step>, i: nat)
    requires forall k :: 0 <= k < |pages| ==> PageOk(pages[k])
    requires Legal(WorkOf(pages), steps) && Run(WorkOf(pages), steps).task.status.CompletedTask?
    requires !Restarts(WorkOf(pages), steps) && i < |pages|
    ensures Run(WorkOf(pages), steps).task.coverage == Some(Payload(PageOps(pages)))
    ensures pages[i].skip || (!pages[i].unreadable && pages[i].mark == [])
  {
    PagesAreWork(pages);
    CompletedExactlyOnce(WorkOf(pages), steps);
    OnlyScansAndSkips(WorkOf(pages), steps, PageOps(pages));
    PageReadToItsEnd(pages, i);
  }

  lemma PagesAreWork(pages: seq<Page>)
    requires forall k :: 0 <= k < |pages| ==> PageOk(pages[k])
    ensures WellFormed(WorkOf(pages))
    ensures OpsOf(WorkOf(pages).units) + WorkOf(pages).tail == PageOps(pages)
  {
    NothingIsWhole([]);
    PagesMakeWork(pages, []);
    CutOps(pages, []);
    assert [] + PageOps(pages) == PageOps(pages);
  }

  lemma PageReadToItsEnd(pages: seq<Page>, i: nat)
    requires i < |pages| && PageOk(pages[i]) && forall op :: op in PageOps(pages) ==> op.Scan? || op.Skip?
    ensures pages[i].skip || (!pages[i].unreadable && pages[i].mark == [])
  {
    PageIsRecorded(pages, i);
    var mark := pages[i].mark;
    assert mark != [] ==> mark[0] in mark;
  }

  lemma OnlyScansAndSkips(w: Work, steps: seq<Step>, ops: seq<Op>)
    requires WellFormed(w) && Legal(w, steps) && Run(w, steps).task.status.CompletedTask?
    requires !Restarts(w, steps) && ops == OpsOf(w.units) + w.tail
    ensures forall op :: op in ops ==> op.Scan? || op.Skip?
  {
    CompletedMeansInspected(w, steps);
    CompletedExactlyOnce(w, steps);
  }
}
