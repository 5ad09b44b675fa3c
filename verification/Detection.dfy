/**
 From the candidates of one content unit to its reported snippets: cap, collapse of
 overlapping matches, the search for neighbours that reach a snippet's window, and
 redaction against all matches of the unit.
 */
module Detection {
  import opened Basics
  import opened Spans
  import opened Sorting
  import opened Redaction
  import opened Rendering
  import opened Refusal
  import Scrub

  /** A match that survived its rule's gates. */
  datatype Candidate = Candidate(ruleId: string, severity: nat, score: real, span: Span, policy: Policy)

  // ----- ranking -----

  predicate StartsEarlier(a: Candidate, b: Candidate) {
    a.span.start < b.span.start
  }

  /** Severity first, then confidence, then position. */
  predicate MoreSevere(a: Candidate, b: Candidate) {
    || a.severity > b.severity
    || (a.severity == b.severity &&
        (a.score > b.score || (a.score == b.score && a.span.start < b.span.start)))
  }

  function Width(s: Span): int { s.end - s.start }

  /** Confidence first, then the longer span, then position. */
  predicate Stronger(a: Candidate, b: Candidate) {
    || a.score > b.score
    || (a.score == b.score &&
        (Width(a.span) > Width(b.span) ||
         (Width(a.span) == Width(b.span) && a.span.start < b.span.start)))
  }

  lemma RankingsAreOrders()
    ensures KeyOrder(StartsEarlier) && KeyOrder(MoreSevere) && KeyOrder(Stronger)
  {
  }

  /** The `limit` candidates most worth reporting, back in document order. */
  function Strongest(candidates: seq<Candidate>, limit: nat): seq<Candidate> {
    SortBy(Take(SortBy(candidates, MoreSevere), limit), StartsEarlier)
  }

  lemma TakenFirst(ranked: seq<Candidate>, limit: nat, d: Candidate, k: Candidate)
    requires limit <= |ranked| && Ordered(ranked, MoreSevere)
    requires d in ranked[limit..] && k in ranked[..limit]
    ensures !MoreSevere(d, k)
  {
    var i :| 0 <= i < limit && ranked[..limit][i] == k;
    var j :| 0 <= j < |ranked| - limit && ranked[limit..][j] == d;
    assert !MoreSevere(ranked[limit + j], ranked[i]);
  }

  lemma CapIsTop(candidates: seq<Candidate>, limit: nat)
    requires |candidates| > limit
    ensures var ranked := SortBy(candidates, MoreSevere);
            && Ordered(ranked, MoreSevere) && |ranked| == |candidates|
            && multiset(Strongest(candidates, limit)) == multiset(ranked[..limit])
            && multiset(candidates) == multiset(ranked[..limit]) + multiset(ranked[limit..])
            && |Strongest(candidates, limit)| == limit && Ordered(Strongest(candidates, limit), StartsEarlier)
  {
    RankingsAreOrders();
    var ranked := SortBy(candidates, MoreSevere);
    SortByOrders(candidates, MoreSevere);
    SortByLength(candidates, MoreSevere);
    assert ranked == ranked[..limit] + ranked[limit..];
    SortByOrders(ranked[..limit], StartsEarlier);
    SortByLength(ranked[..limit], StartsEarlier);
  }

  /** The cap keeps exactly `limit`, in document order, and nothing it drops outranks what it keeps. */
  lemma CapKeepsStrongest(candidates: seq<Candidate>, limit: nat)
    requires |candidates| > limit
    ensures var kept := Strongest(candidates, limit);
            && |kept| == limit && Ordered(kept, StartsEarlier)
            && multiset(kept) <= multiset(candidates)
            && forall d, k :: d in multiset(candidates) - multiset(kept) && k in kept ==> !MoreSevere(d, k)
  {
    CapIsTop(candidates, limit);
    var ranked, kept := SortBy(candidates, MoreSevere), Strongest(candidates, limit);
    forall d, k | d in multiset(candidates) - multiset(kept) && k in kept ensures !MoreSevere(d, k) {
      assert d in multiset(ranked[limit..]) && k in multiset(ranked[..limit]);
      TakenFirst(ranked, limit, d, k);
    }
  }

  // ----- collapsing overlaps -----

  ghost predicate Clashes(c: Candidate, kept: seq<Candidate>) {
    exists k :: k in kept && Overlaps(c.span, k.span)
  }

  predicate Disjoint(kept: seq<Candidate>) {
    forall i, j :: 0 <= i < j < |kept| ==> !Overlaps(kept[i].span, kept[j].span)
  }

  /** The reference: walk down a ranking, keeping what clashes with nothing kept before it. */
  ghost function Greedy(ranked: seq<Candidate>): seq<Candidate> {
    if ranked == [] then []
    else
      var kept, last := Greedy(ranked[..|ranked| - 1]), ranked[|ranked| - 1];
      if Clashes(last, kept) then kept else kept + [last]
  }

  /** The greedy walk itself. */
  method KeepGreedily(ranked: seq<Candidate>) returns (chosen: seq<Candidate>)
    ensures chosen == Greedy(ranked)
  {
    chosen := [];
    for i := 0 to |ranked|
      invariant chosen == Greedy(ranked[..i])
    {
      var c := ranked[i];
      assert ranked[..i + 1][..i] == ranked[..i];
      if !exists k :: k in chosen && Overlaps(c.span, k.span) {
        chosen := chosen + [c];
      }
    }
    assert ranked[..|ranked|] == ranked;
  }

  /** What does not survive the greedy walk is beaten by something that does. */
  lemma LosersLose(candidates: seq<Candidate>, ranked: seq<Candidate>, kept: seq<Candidate>)
    requires Ordered(ranked, Stronger) && (forall c :: c in ranked <==> c in candidates)
    requires forall c :: c in kept <==> c in Greedy(ranked)
    ensures forall c :: c in candidates && c !in kept ==>
              exists k :: k in kept && Overlaps(c.span, k.span) && !Stronger(c, k)
  {
    forall c | c in candidates && c !in kept
      ensures exists k :: k in kept && Overlaps(c.span, k.span) && !Stronger(c, k)
    {
      var i :| 0 <= i < |ranked| && ranked[i] == c;
      DroppedLoses(ranked, i);
    }
  }

  /** What the collapse keeps: the greedy choice down the ranking, back in document order. */
  ghost function Collapse(candidates: seq<Candidate>): seq<Candidate> {
    SortBy(Greedy(SortBy(candidates, Stronger)), StartsEarlier)
  }

  /** Collapse overlapping matches to the strongest of each. */
  method StrongestOfEachOverlap(candidates: seq<Candidate>) returns (kept: seq<Candidate>)
    ensures kept == Collapse(candidates)
    ensures Ordered(kept, StartsEarlier) && Disjoint(kept)
    ensures multiset(kept) <= multiset(candidates)
    ensures forall c :: c in candidates && c !in kept ==>
              exists k :: k in kept && Overlaps(c.span, k.span) && !Stronger(c, k)
  {
    RankingsAreOrders();
    var ranked := SortBy(candidates, Stronger);
    SortByOrders(candidates, Stronger);
    SortByLength(candidates, Stronger);
    var chosen := KeepGreedily(ranked);
    kept := SortBy(chosen, StartsEarlier);
    SortByOrders(chosen, StartsEarlier);
    SortByLength(chosen, StartsEarlier);
    GreedyIsDisjoint(ranked);
    GreedyIsPart(ranked);
    DisjointSame(chosen, kept);
    LosersLose(candidates, ranked, kept);
  }

  lemma {:induction false} GreedyIsDisjoint(ranked: seq<Candidate>)
    ensures Disjoint(Greedy(ranked))
  {
    if ranked != [] {
      var before, last := ranked[..|ranked| - 1], ranked[|ranked| - 1];
      GreedyIsDisjoint(before);
      var kept := Greedy(before);
      if !Clashes(last, kept) {
        forall i | 0 <= i < |kept| ensures !Overlaps(kept[i].span, last.span) {
          assert kept[i] in kept;
        }
      }
    }
  }

  lemma {:induction false} GreedyIsPart(ranked: seq<Candidate>)
    ensures multiset(Greedy(ranked)) <= multiset(ranked)
  {
    if ranked != [] {
      GreedyIsPart(ranked[..|ranked| - 1]);
      assert ranked == ranked[..|ranked| - 1] + [ranked[|ranked| - 1]];
    }
  }

  lemma {:induction false} GreedyGrows(ranked: seq<Candidate>, n: nat)
    requires n <= |ranked|
    ensures forall k :: k in Greedy(ranked[..n]) ==> k in Greedy(ranked)
  {
    if n < |ranked| {
      var before := ranked[..|ranked| - 1];
      GreedyGrows(before, n);
      assert before[..n] == ranked[..n];
    } else {
      assert ranked[..n] == ranked;
    }
  }

  lemma GreedyStep(ranked: seq<Candidate>, i: nat)
    requires i < |ranked|
    ensures Clashes(ranked[i], Greedy(ranked[..i])) || ranked[i] in Greedy(ranked[..i + 1])
  {
    var upto := ranked[..i + 1];
    assert upto[..|upto| - 1] == ranked[..i] && upto[|upto| - 1] == ranked[i];
  }

  /** A dropped candidate lost to a kept one that is ranked no later. */
  lemma DroppedLoses(ranked: seq<Candidate>, i: nat)
    requires i < |ranked| && Ordered(ranked, Stronger) && ranked[i] !in Greedy(ranked)
    ensures exists k :: k in Greedy(ranked) && Overlaps(ranked[i].span, k.span) && !Stronger(ranked[i], k)
  {
    GreedyStep(ranked, i);
    GreedyGrows(ranked, i + 1);
    var k :| k in Greedy(ranked[..i]) && Overlaps(ranked[i].span, k.span);
    GreedyGrows(ranked, i);
    RankedNoLater(ranked, i, k);
  }

  lemma RankedNoLater(ranked: seq<Candidate>, i: nat, k: Candidate)
    requires i < |ranked| && Ordered(ranked, Stronger) && k in Greedy(ranked[..i])
    ensures !Stronger(ranked[i], k)
  {
    GreedyIsPart(ranked[..i]);
    assert k in multiset(Greedy(ranked[..i])) && k in multiset(ranked[..i]);
    var j :| 0 <= j < i && ranked[..i][j] == k;
    assert !Stronger(ranked[i], ranked[j]);
  }

  lemma DisjointSame(a: seq<Candidate>, b: seq<Candidate>)
    requires Disjoint(a) && multiset(a) == multiset(b)
    ensures Disjoint(b)
  {
    forall i, j | 0 <= i < j < |b| ensures !Overlaps(b[i].span, b[j].span) {
      if b[i] == b[j] {
        TwiceIn(b, i, j);
        var m, n := TwoPlaces(a, b[i]);
        assert !Overlaps(a[m].span, a[n].span);
      } else {
        assert b[i] in multiset(a) && b[j] in multiset(a);
        var m :| 0 <= m < |a| && a[m] == b[i];
        var n :| 0 <= n < |a| && a[n] == b[j];
        assert m < n ==> !Overlaps(a[m].span, a[n].span);
        assert n < m ==> !Overlaps(a[n].span, a[m].span);
      }
    }
  }

  lemma TwiceIn(b: seq<Candidate>, i: nat, j: nat)
    requires i < j < |b| && b[i] == b[j]
    ensures multiset(b)[b[i]] >= 2
  {
    assert b == b[..j] + b[j..];
    assert b[j..][0] == b[i] && b[..j][i] == b[i];
    assert b[i] in multiset(b[..j]) && b[i] in multiset(b[j..]);
  }

  lemma {:induction false} TwoPlaces(a: seq<Candidate>, c: Candidate) returns (m: nat, n: nat)
    requires multiset(a)[c] >= 2
    ensures m < n < |a| && a[m] == c && a[n] == c
  {
    var before, last := a[..|a| - 1], a[|a| - 1];
    assert a == before + [last];
    if last == c {
      n := |a| - 1;
      assert c in multiset(before);
      m :| 0 <= m < |before| && before[m] == c;
    } else {
      m, n := TwoPlaces(before, c);
    }
  }

  // ----- neighbours of a window -----

  predicate Rising(starts: seq<int>) {
    forall i, j :: 0 <= i < j < |starts| ==> starts[i] <= starts[j]
  }

  method BisectLeft(starts: seq<int>, value: int) returns (at: nat)
    requires Rising(starts)
    ensures at <= |starts|
    ensures forall i :: 0 <= i < at ==> starts[i] < value
    ensures forall i :: at <= i < |starts| ==> starts[i] >= value
  {
    var lo, hi := 0, |starts|;
    while lo < hi
      invariant 0 <= lo <= hi <= |starts|
      invariant forall i :: 0 <= i < lo ==> starts[i] < value
      invariant forall i :: hi <= i < |starts| ==> starts[i] >= value
    {
      var mid := (lo + hi) / 2;
      if starts[mid] < value { lo := mid + 1; } else { hi := mid; }
    }
    at := lo;
  }

  method BisectRight(starts: seq<int>, value: int) returns (at: nat)
    requires Rising(starts)
    ensures at <= |starts|
    ensures forall i :: 0 <= i < at ==> starts[i] <= value
    ensures forall i :: at <= i < |starts| ==> starts[i] > value
  {
    var lo, hi := 0, |starts|;
    while lo < hi
      invariant 0 <= lo <= hi <= |starts|
      invariant forall i :: 0 <= i < lo ==> starts[i] <= value
      invariant forall i :: hi <= i < |starts| ==> starts[i] > value
    {
      var mid := (lo + hi) / 2;
      if value < starts[mid] { hi := mid; } else { lo := mid + 1; }
    }
    at := lo;
  }

  /** The reference: every span of the list that overlaps the window, by looking at each. */
  function Reaching(spans: seq<Span>, window: Span): seq<Span> {
    if spans == [] then []
    else
      Reaching(spans[..|spans| - 1], window) +
      if Overlaps(spans[|spans| - 1], window) then [spans[|spans| - 1]] else []
  }

  lemma {:induction false} ReachingConcat(a: seq<Span>, b: seq<Span>, window: Span)
    ensures Reaching(a + b, window) == Reaching(a, window) + Reaching(b, window)
  {
    if b == [] {
      assert a + b == a;
    } else {
      assert (a + b)[..|a + b| - 1] == a + b[..|b| - 1];
      ReachingConcat(a, b[..|b| - 1], window);
    }
  }

  lemma {:induction false} NoneReaching(spans: seq<Span>, window: Span)
    requires forall i :: 0 <= i < |spans| ==> !Overlaps(spans[i], window)
    ensures Reaching(spans, window) == []
  {
    if spans != [] {
      NoneReaching(spans[..|spans| - 1], window);
    }
  }

  lemma {:induction false} ReachingMembers(spans: seq<Span>, window: Span, s: Span)
    ensures s in Reaching(spans, window) <==> s in spans && Overlaps(s, window)
  {
    if spans != [] {
      var before: seq<Span>, last: Span := spans[..|spans| - 1], spans[|spans| - 1];
      ReachingMembers(before, window, s);
      assert spans == before + [last];
    }
  }

  lemma ReachingSlice(spans: seq<Span>, first: nat, last: nat, window: Span)
    requires first <= last <= |spans|
    requires forall i :: 0 <= i < first || last <= i < |spans| ==> !Overlaps(spans[i], window)
    ensures Reaching(spans, window) == Reaching(spans[first..last], window)
  {
    assert spans == spans[..first] + (spans[first..last] + spans[last..]);
    ReachingConcat(spans[..first], spans[first..last] + spans[last..], window);
    ReachingConcat(spans[first..last], spans[last..], window);
    NoneReaching(spans[..first], window);
    NoneReaching(spans[last..], window);
  }

  method FilterOverlapping(slice: seq<Span>, window: Span) returns (near: seq<Span>)
    ensures near == Reaching(slice, window)
  {
    near := [];
    for i := 0 to |slice|
      invariant near == Reaching(slice[..i], window)
    {
      assert slice[..i + 1][..i] == slice[..i];
      if Overlaps(slice[i], window) {
        near := near + [slice[i]];
      }
    }
    assert slice[..|slice|] == slice;
  }

  /** The slice found by bisection yields exactly what looking at every span would. */
  method SpansReaching(spans: seq<Span>, starts: seq<int>, widest: int, window: Span)
    returns (near: seq<Span>)
    requires SortedByStart(spans) && |starts| == |spans|
    requires forall i :: 0 <= i < |spans| ==> starts[i] == spans[i].start && Width(spans[i]) <= widest
    ensures near == Reaching(spans, window)
  {
    var first := BisectLeft(starts, window.start - widest);
    var last := BisectRight(starts, window.end);
    if first > 0 {
      assert starts[first - 1] < window.start - widest && Width(spans[first - 1]) <= widest;
    }
    assert first <= last;
    ReachingSlice(spans, first, last, window);
    near := FilterOverlapping(spans[first..last], window);
  }

  method Widest(spans: seq<Span>) returns (widest: int)
    ensures forall i :: 0 <= i < |spans| ==> Width(spans[i]) <= widest
    ensures if spans == [] then widest == 0 else exists i :: 0 <= i < |spans| && Width(spans[i]) == widest
  {
    widest := 0;
    for i := 0 to |spans|
      invariant forall j :: 0 <= j < i ==> Width(spans[j]) <= widest
      invariant if i == 0 then widest == 0 else exists j :: 0 <= j < i && Width(spans[j]) == widest
    {
      if Width(spans[i]) > widest {
        widest := Width(spans[i]);
      }
    }
  }

  // ----- the unit -----

  /** A candidate with the snippet drafted for it. */
  datatype Drafted = Drafted(candidate: Candidate, draft: Draft)

  /** A reported match and the snippet stored with it. */
  datatype Reported = Reported(candidate: Candidate, draft: Draft, stored: string)

  datatype Result = Result(secrets: seq<Reported>, belowThreshold: nat, overlapping: nat, truncated: bool)

  /** All spans but those equal to the candidate's own. */
  function Others(near: seq<Span>, own: Span): (others: seq<Span>)
    ensures forall s :: s in others <==> s in near && s != own
  {
    if near == [] then []
    else
      var last := near[|near| - 1];
      assert near == near[..|near| - 1] + [last];
      Others(near[..|near| - 1], own) + if last != own then [last] else []
  }

  /** The other matches of the unit that reach the window around a candidate. */
  function NeighboursIn(text: string, c: Candidate, matches: seq<Span>): seq<Span>
    requires c.span.end <= |text|
  {
    Others(Reaching(SortByStart(matches), ContextWindow(|text|, c.span, c.policy.contextChars)), c.span)
  }

  /** The snippet of a candidate in its unit, as a function of the unit's text and matches alone. */
  function DraftFor(text: string, c: Candidate, matches: seq<Span>): Draft
    requires c.span.end <= |text|
  {
    DraftOf(text, c.span, c.policy, NeighboursIn(text, c, matches))
  }

  lemma NeighboursInAre(text: string, c: Candidate, matches: seq<Span>)
    requires c.span.end <= |text|
    ensures forall s :: s in NeighboursIn(text, c, matches) <==>
              s in matches && s != c.span && Overlaps(s, ContextWindow(|text|, c.span, c.policy.contextChars))
  {
    var sorted, window := SortByStart(matches), ContextWindow(|text|, c.span, c.policy.contextChars);
    SortByStartSorts(matches);
    forall s ensures s in Reaching(sorted, window) <==> s in matches && Overlaps(s, window) {
      ReachingMembers(sorted, window, s);
      assert s in multiset(sorted) <==> s in multiset(matches);
    }
  }

  /** A snippet shows no position of any match of the unit, reported or not. */
  ghost predicate ShowsNone(d: Draft, matches: seq<Span>) {
    forall x :: Shown(d.parts, x) ==> !Covered(matches, x)
  }

  lemma DraftShowsNone(text: string, c: Candidate, matches: seq<Span>)
    requires c.span.end <= |text| && forall s :: s in matches ==> s.end <= |text|
    ensures ShowsNone(DraftFor(text, c, matches), matches)
  {
    var others: seq<Span> := NeighboursIn(text, c, matches);
    NeighboursInAre(text, c, matches);
    DraftIsSafe(text, c.span, c.policy, others);
    forall x | Shown(DraftFor(text, c, matches).parts, x) ensures !Covered(matches, x) {
      forall s | s in matches ensures !Has(s, x) {
        if s != c.span && Overlaps(s, ContextWindow(|text|, c.span, c.policy.contextChars)) {
          assert s in others;
        }
      }
    }
  }

  /** When a candidate's snippet is refused, in a unit of plain texts: exactly when its own mask holds one of them. */
  lemma CandidateRefusedIff(text: string, c: Candidate, matches: seq<Span>)
    requires c.span.end <= |text| && forall s :: s in matches ==> s.end <= |text|
    requires Scrub.Untied(TextOf(text, c.span), c.policy)
    requires forall t :: IsMatchedText(text, [c.span] + matches, t) ==> Plain(t, text, c.span, c.policy)
    ensures Leaks(DraftFor(text, c, matches)) <==>
            exists t :: IsMatchedText(text, [c.span] + NeighboursIn(text, c, matches), t)
                        && Contains(MaskOf(TextOf(text, c.span), c.policy), t)
  {
    var others: seq<Span> := NeighboursIn(text, c, matches);
    NeighboursInAre(text, c, matches);
    forall t | IsMatchedText(text, [c.span] + others, t) ensures Plain(t, text, c.span, c.policy) {
      MatchedBeside(text, c.span, others, matches, t);
    }
    RefusedIff(text, c.span, c.policy, others);
  }

  lemma MatchedBeside(text: string, own: Span, some: seq<Span>, all: seq<Span>, t: string)
    requires IsMatchedText(text, [own] + some, t) && forall s :: s in some ==> s in all
    ensures IsMatchedText(text, [own] + all, t)
  {
    var j :| 0 <= j < |[own] + some| && ([own] + some)[j].end <= |text| && t == TextOf(text, ([own] + some)[j]);
    if j > 0 {
      assert some[j - 1] in all;
      var k :| 0 <= k < |all| && all[k] == some[j - 1];
      assert ([own] + all)[k + 1] == all[k];
    } else {
      assert ([own] + all)[0] == own;
    }
  }

  // ----- what is reported -----

  /** One draft per candidate, in order. */
  function Drafts(draft: Candidate --> Draft, candidates: seq<Candidate>): seq<Drafted>
    requires forall c :: c in candidates ==> draft.requires(c)
  {
    if candidates == [] then []
    else
      var before, last := candidates[..|candidates| - 1], candidates[|candidates| - 1];
      assert last in candidates;
      Drafts(draft, before) + [Drafted(last, draft(last))]
  }

  lemma {:induction false} DraftsAre(draft: Candidate --> Draft, candidates: seq<Candidate>)
    requires forall c :: c in candidates ==> draft.requires(c)
    ensures |Drafts(draft, candidates)| == |candidates|
    ensures forall i :: 0 <= i < |candidates| ==>
              && candidates[i] in candidates
              && Drafts(draft, candidates)[i] == Drafted(candidates[i], draft(candidates[i]))
  {
    if candidates != [] {
      DraftsAre(draft, candidates[..|candidates| - 1]);
    }
  }

  lemma OneMoreDraft(draft: Candidate --> Draft, candidates: seq<Candidate>, n: nat)
    requires n < |candidates| && forall c :: c in candidates ==> draft.requires(c)
    ensures candidates[n] in candidates
    ensures Drafts(draft, candidates[..n + 1]) ==
            Drafts(draft, candidates[..n]) + [Drafted(candidates[n], draft(candidates[n]))]
  {
    assert candidates[..n + 1][..n] == candidates[..n];
  }

  function Drafting(text: string, matches: seq<Span>): Candidate --> Draft {
    (c: Candidate) requires c.span.end <= |text| => DraftFor(text, c, matches)
  }

  /** The snippets of a unit's candidates, as a function of its text and matches. */
  function DraftsFor(text: string, candidates: seq<Candidate>, matches: seq<Span>): seq<Drafted>
    requires forall c :: c in candidates ==> c.span.end <= |text|
  {
    Drafts(Drafting(text, matches), candidates)
  }

  /** What is reported of the drafts: those whose text holds no matched text. */
  function StoredOf(drafts: seq<Drafted>): seq<Reported> {
    if drafts == [] then []
    else
      var rest, last := StoredOf(drafts[..|drafts| - 1]), drafts[|drafts| - 1];
      if Leaks(last.draft) then rest
      else rest + [Reported(last.candidate, last.draft, Take(last.draft.text, MAX_SNIPPET_CHARS))]
  }

  /** The candidates whose findings are dropped because their snippet is refused. */
  function RefusedOf(drafts: seq<Drafted>): seq<Candidate> {
    if drafts == [] then []
    else
      RefusedOf(drafts[..|drafts| - 1]) +
      if Leaks(drafts[|drafts| - 1].draft) then [drafts[|drafts| - 1].candidate] else []
  }

  /** Every draft is either stored or refused, and what is stored holds no matched text. */
  lemma {:induction false} StoredOrRefused(drafts: seq<Drafted>)
    ensures |StoredOf(drafts)| + |RefusedOf(drafts)| == |drafts|
    ensures forall d :: d in drafts ==>
              if Leaks(d.draft) then d.candidate in RefusedOf(drafts)
              else Reported(d.candidate, d.draft, Take(d.draft.text, MAX_SNIPPET_CHARS)) in StoredOf(drafts)
    ensures forall r :: r in StoredOf(drafts) ==>
              Drafted(r.candidate, r.draft) in drafts && forall t :: t in r.draft.secrets ==> !Contains(r.stored, t)
  {
    if drafts != [] {
      var before, last := drafts[..|drafts| - 1], drafts[|drafts| - 1];
      StoredOrRefused(before);
      assert drafts == before + [last];
      if !Leaks(last.draft) {
        StoredHoldsNone(last.draft);
      }
    }
  }

  lemma StoredHoldsNone(d: Draft)
    requires !Leaks(d)
    ensures forall t :: t in d.secrets ==> !Contains(Take(d.text, MAX_SNIPPET_CHARS), t)
  {
    forall t | t in d.secrets ensures !Contains(Take(d.text, MAX_SNIPPET_CHARS), t) {
      var k :| 0 <= k < |d.secrets| && d.secrets[k] == t;
      CutHoldsNoMore(d.text, MAX_SNIPPET_CHARS, t);
    }
  }

  lemma {:induction false} StoredStayApart(drafts: seq<Drafted>)
    requires forall i, j :: 0 <= i < j < |drafts| ==> !Overlaps(drafts[i].candidate.span, drafts[j].candidate.span)
    ensures var secrets := StoredOf(drafts);
            forall i, j :: 0 <= i < j < |secrets| ==> !Overlaps(secrets[i].candidate.span, secrets[j].candidate.span)
  {
    if drafts != [] {
      var before, last := drafts[..|drafts| - 1], drafts[|drafts| - 1];
      StoredStayApart(before);
      StoredOrRefused(before);
      forall i | 0 <= i < |StoredOf(before)|
        ensures !Overlaps(StoredOf(before)[i].candidate.span, last.candidate.span)
      {
        var r := StoredOf(before)[i];
        assert r in StoredOf(before);
        var k :| 0 <= k < |before| && before[k] == Drafted(r.candidate, r.draft);
        assert !Overlaps(drafts[k].candidate.span, drafts[|drafts| - 1].candidate.span);
      }
    }
  }

  lemma StoredOfOne(c: Candidate, d: Draft)
    ensures StoredOf([Drafted(c, d)]) ==
            if Leaks(d) then [] else [Reported(c, d, Take(d.text, MAX_SNIPPET_CHARS))]
  {
    assert [Drafted(c, d)][..0] == [] && StoredOf([Drafted(c, d)][..0]) == [];
  }

  /** Redact one candidate against every match that reaches its window; a refused snippet is dropped. */
  method Snippet(text: string, c: Candidate, spans: seq<Span>, starts: seq<int>, widest: int,
                 ghost matches: seq<Span>)
    returns (stored: seq<Reported>)
    requires Indexed(text, spans, starts, widest) && spans == SortByStart(matches) && c.span.end <= |text|
    ensures stored == StoredOf([Drafted(c, DraftFor(text, c, matches))])
  {
    var near: seq<Span> := SpansReaching(spans, starts, widest, ContextWindow(|text|, c.span, c.policy.contextChars));
    var neighbours: seq<Span> := Others(near, c.span);
    forall s | s in neighbours ensures s.end <= |text| {
      ReachingMembers(spans, ContextWindow(|text|, c.span, c.policy.contextChars), s);
    }
    var outcome := RedactSnippet(text, c.span, c.policy, neighbours);
    stored := if outcome.Snippet? then [Reported(c, outcome.draft, outcome.stored)] else [];
    StoredOfOne(c, DraftFor(text, c, matches));
  }

  // ----- threshold, cap and collapse -----

  function AboveThreshold(found: seq<Candidate>, threshold: real): seq<Candidate> {
    if found == [] then []
    else
      AboveThreshold(found[..|found| - 1], threshold) +
      if found[|found| - 1].score >= threshold then [found[|found| - 1]] else []
  }

  lemma {:induction false} AboveIsPart(found: seq<Candidate>, threshold: real)
    ensures |AboveThreshold(found, threshold)| <= |found|
    ensures forall c :: c in AboveThreshold(found, threshold) <==> c in found && c.score >= threshold
  {
    if found != [] {
      AboveIsPart(found[..|found| - 1], threshold);
      assert found == found[..|found| - 1] + [found[|found| - 1]];
    }
  }

  /** The candidates that compete for a place in the report. */
  function Capped(found: seq<Candidate>, threshold: real, maxMatches: nat): seq<Candidate> {
    var above := AboveThreshold(found, threshold);
    if |above| > maxMatches then Strongest(above, maxMatches) else above
  }

  /** The candidates that get a snippet. */
  ghost function Chosen(found: seq<Candidate>, threshold: real, maxMatches: nat): seq<Candidate> {
    Collapse(Capped(found, threshold, maxMatches))
  }

  /** Kept itself, or beaten by a kept match it overlaps. */
  ghost predicate Represented(c: Candidate, kept: seq<Candidate>) {
    c in kept || exists k :: k in kept && Overlaps(c.span, k.span) && !Stronger(c, k)
  }

  /** Threshold, cap and collapse: what is reported, and what each step dropped. */
  method Reportable(found: seq<Candidate>, threshold: real, maxMatches: nat)
    returns (reportable: seq<Candidate>, overlapping: nat, truncated: bool)
    ensures reportable == Chosen(found, threshold, maxMatches)
    ensures forall c :: c in reportable ==> c in found && c.score >= threshold
    ensures Disjoint(reportable) && Ordered(reportable, StartsEarlier)
    ensures forall c :: c in Capped(found, threshold, maxMatches) ==> Represented(c, reportable)
    ensures truncated <==> |AboveThreshold(found, threshold)| > maxMatches
    ensures |reportable| + overlapping ==
            if truncated then maxMatches else |AboveThreshold(found, threshold)|
  {
    var above := AboveThreshold(found, threshold);
    AboveIsPart(found, threshold);
    var capped := above;
    truncated := |above| > maxMatches;
    if truncated {
      CapKeepsStrongest(above, maxMatches);
      capped := Strongest(above, maxMatches);
    }
    reportable := StrongestOfEachOverlap(capped);
    SmallerPart(reportable, capped);
    overlapping := |capped| - |reportable|;
    forall c | c in reportable ensures c in above {
      assert c in multiset(reportable) && c in multiset(capped) && c in multiset(above);
    }
  }

  lemma SmallerPart(part: seq<Candidate>, whole: seq<Candidate>)
    requires multiset(part) <= multiset(whole)
    ensures |part| <= |whole|
  {
    assert multiset(whole) == multiset(part) + (multiset(whole) - multiset(part));
    assert |multiset(part)| == |part| && |multiset(whole)| == |whole|;
  }

  // ----- the whole second half of detection -----

  /** The sorted spans, their starts and their greatest width, as the neighbour search wants them. */
  ghost predicate Indexed(text: string, spans: seq<Span>, starts: seq<int>, widest: int) {
    && SortedByStart(spans) && |starts| == |spans|
    && forall i :: 0 <= i < |spans| ==>
         starts[i] == spans[i].start && Width(spans[i]) <= widest && spans[i].end <= |text|
  }

  method Index(text: string, matches: seq<Span>) returns (spans: seq<Span>, starts: seq<int>, widest: int)
    requires forall s :: s in matches ==> s.end <= |text|
    ensures Indexed(text, spans, starts, widest) && spans == SortByStart(matches)
  {
    spans := SortByStart(matches);
    SortByStartSorts(matches);
    starts := seq(|spans|, i requires 0 <= i < |spans| => spans[i].start);
    widest := Widest(spans);
    forall i | 0 <= i < |spans| ensures spans[i].end <= |text| {
      assert spans[i] in multiset(spans) && spans[i] in matches;
    }
  }

  lemma OneMoreStored(drafts: seq<Drafted>, d: Drafted)
    ensures StoredOf(drafts + [d]) == StoredOf(drafts) + StoredOf([d])
  {
    assert (drafts + [d])[..|drafts|] == drafts && [d][..0] == [] && StoredOf([d][..0]) == [];
  }

  /** Redact every reportable match in turn. */
  method Snippets(text: string, reportable: seq<Candidate>, matches: seq<Span>) returns (secrets: seq<Reported>)
    requires forall c :: c in reportable ==> c.span.end <= |text|
    requires forall s :: s in matches ==> s.end <= |text|
    ensures secrets == StoredOf(DraftsFor(text, reportable, matches))
  {
    var spans, starts, widest := Index(text, matches);
    secrets := [];
    for n := 0 to |reportable|
      invariant secrets == StoredOf(DraftsFor(text, reportable[..n], matches))
    {
      OneMoreDraft(Drafting(text, matches), reportable, n);
      OneMoreStored(DraftsFor(text, reportable[..n], matches),
                    Drafted(reportable[n], DraftFor(text, reportable[n], matches)));
      var stored := Snippet(text, reportable[n], spans, starts, widest, matches);
      secrets := secrets + stored;
    }
    assert reportable[..|reportable|] == reportable;
  }

  /** What the reports of chosen candidates have in common. */
  lemma ReportsAre(text: string, chosen: seq<Candidate>, matches: seq<Span>)
    requires (forall c :: c in chosen ==> c.span.end <= |text|) && forall s :: s in matches ==> s.end <= |text|
    requires Disjoint(chosen)
    ensures var secrets := StoredOf(DraftsFor(text, chosen, matches));
            && (forall c :: c in chosen ==>
                  (Leaks(DraftFor(text, c, matches)) <==> !exists r :: r in secrets && r.candidate == c))
            && (forall r :: r in secrets ==> r.candidate in chosen && Safe(text, r, matches))
            && (forall i, j :: 0 <= i < j < |secrets| ==>
                  !Overlaps(secrets[i].candidate.span, secrets[j].candidate.span))
  {
    var drafts := DraftsFor(text, chosen, matches);
    DraftsAre(Drafting(text, matches), chosen);
    StoredOrRefused(drafts);
    StoredStayApart(drafts);
    forall r | r in StoredOf(drafts) ensures r.candidate in chosen && Safe(text, r, matches) {
      ReportIs(text, chosen, matches, r);
    }
    forall c | c in chosen
      ensures Leaks(DraftFor(text, c, matches)) <==> !exists r :: r in StoredOf(drafts) && r.candidate == c
    {
      ReportedUnlessLeaking(text, chosen, matches, c);
    }
  }

  /** The report's snippet is the candidate's own, shows none of the unit's matches and stores none of their texts. */
  ghost predicate Safe(text: string, r: Reported, matches: seq<Span>) {
    && r.candidate.span.end <= |text| && r.draft == DraftFor(text, r.candidate, matches) && !Leaks(r.draft)
    && ShowsNone(r.draft, matches) && forall t :: t in r.draft.secrets ==> !Contains(r.stored, t)
  }

  lemma {:induction false} StoredDoNotLeak(drafts: seq<Drafted>)
    ensures forall r :: r in StoredOf(drafts) ==> !Leaks(r.draft)
  {
    if drafts != [] {
      StoredDoNotLeak(drafts[..|drafts| - 1]);
    }
  }

  lemma ReportIs(text: string, chosen: seq<Candidate>, matches: seq<Span>, r: Reported)
    requires (forall c :: c in chosen ==> c.span.end <= |text|) && forall s :: s in matches ==> s.end <= |text|
    requires r in StoredOf(DraftsFor(text, chosen, matches))
    ensures r.candidate in chosen && Safe(text, r, matches)
  {
    var drafts := DraftsFor(text, chosen, matches);
    DraftsAre(Drafting(text, matches), chosen);
    StoredOrRefused(drafts);
    StoredDoNotLeak(drafts);
    var k :| 0 <= k < |drafts| && drafts[k] == Drafted(r.candidate, r.draft);
    assert chosen[k] in chosen;
    DraftShowsNone(text, r.candidate, matches);
  }

  lemma ReportedUnlessLeaking(text: string, chosen: seq<Candidate>, matches: seq<Span>, c: Candidate)
    requires (forall d :: d in chosen ==> d.span.end <= |text|) && forall s :: s in matches ==> s.end <= |text|
    requires c in chosen
    ensures Leaks(DraftFor(text, c, matches)) <==>
            !exists r :: r in StoredOf(DraftsFor(text, chosen, matches)) && r.candidate == c
  {
    var drafts, d := DraftsFor(text, chosen, matches), DraftFor(text, c, matches);
    var k :| 0 <= k < |chosen| && chosen[k] == c;
    DraftsAre(Drafting(text, matches), chosen);
    StoredOrRefused(drafts);
    assert drafts[k] == Drafted(c, d) && drafts[k] in drafts;
    if Leaks(d) {
      forall r | r in StoredOf(drafts) ensures r.candidate != c {
        ReportIs(text, chosen, matches, r);
      }
    } else {
      assert Reported(c, d, Take(d.text, MAX_SNIPPET_CHARS)).candidate == c;
    }
  }

  /**
   The whole second half of detection. The reports are those of the chosen candidates whose snippet,
   a function of the text and the matches, holds no matched text; no report shows a position of any
   match or stores the text of one; reported matches do not overlap, and every candidate found is
   accounted for.
   */
  method Detect(text: string, found: seq<Candidate>, matches: seq<Span>, threshold: real, maxMatches: nat)
    returns (result: Result)
    requires forall c :: c in found ==> c.span.end <= |text|
    requires forall s :: s in matches ==> s.end <= |text|
    ensures forall c :: c in Chosen(found, threshold, maxMatches) ==> c in found && c.score >= threshold
    ensures forall c :: c in Capped(found, threshold, maxMatches) ==>
              Represented(c, Chosen(found, threshold, maxMatches))
    ensures result.secrets == StoredOf(DraftsFor(text, Chosen(found, threshold, maxMatches), matches))
    ensures forall c :: c in Chosen(found, threshold, maxMatches) ==>
              (Leaks(DraftFor(text, c, matches)) <==> !exists r :: r in result.secrets && r.candidate == c)
    ensures forall r :: r in result.secrets ==>
              r.candidate in Chosen(found, threshold, maxMatches) && Safe(text, r, matches)
    ensures forall i, j :: 0 <= i < j < |result.secrets| ==>
              !Overlaps(result.secrets[i].candidate.span, result.secrets[j].candidate.span)
    ensures result.truncated <==> |AboveThreshold(found, threshold)| > maxMatches
    ensures result.belowThreshold == |found| - |AboveThreshold(found, threshold)|
    ensures result.belowThreshold + result.overlapping + |result.secrets| +
            |RefusedOf(DraftsFor(text, Chosen(found, threshold, maxMatches), matches))| ==
            |found| - if result.truncated then |AboveThreshold(found, threshold)| - maxMatches else 0
  {
    AboveIsPart(found, threshold);
    var below := |found| - |AboveThreshold(found, threshold)|;
    var reportable, overlapping, truncated := Reportable(found, threshold, maxMatches);
    var secrets := Snippets(text, reportable, matches);
    ReportsAre(text, reportable, matches);
    StoredOrRefused(DraftsFor(text, reportable, matches));
    DraftsAre(Drafting(text, matches), reportable);
    result := Result(secrets, below, overlapping, truncated);
  }

  /** In a unit of plain texts, none of which occurs in a chosen candidate's mask, each of these is reported. */
  lemma NoneRefused(text: string, chosen: seq<Candidate>, matches: seq<Span>)
    requires (forall c :: c in chosen ==> c.span.end <= |text|) && forall s :: s in matches ==> s.end <= |text|
    requires forall c :: c in chosen ==>
               && Scrub.Untied(TextOf(text, c.span), c.policy)
               && forall t :: IsMatchedText(text, [c.span] + matches, t) ==>
                    Plain(t, text, c.span, c.policy) && !Contains(MaskOf(TextOf(text, c.span), c.policy), t)
    ensures RefusedOf(DraftsFor(text, chosen, matches)) == []
    ensures |StoredOf(DraftsFor(text, chosen, matches))| == |chosen|
  {
    var drafts := DraftsFor(text, chosen, matches);
    DraftsAre(Drafting(text, matches), chosen);
    forall i | 0 <= i < |drafts| ensures !Leaks(drafts[i].draft) {
      NotRefused(text, chosen[i], matches);
    }
    NothingLeaks(drafts);
    StoredOrRefused(drafts);
  }

  lemma NotRefused(text: string, c: Candidate, matches: seq<Span>)
    requires c.span.end <= |text| && forall s :: s in matches ==> s.end <= |text|
    requires Scrub.Untied(TextOf(text, c.span), c.policy)
    requires forall t :: IsMatchedText(text, [c.span] + matches, t) ==>
               Plain(t, text, c.span, c.policy) && !Contains(MaskOf(TextOf(text, c.span), c.policy), t)
    ensures !Leaks(DraftFor(text, c, matches))
  {
    CandidateRefusedIff(text, c, matches);
    NeighboursInAre(text, c, matches);
    forall t | IsMatchedText(text, [c.span] + NeighboursIn(text, c, matches), t)
      ensures !Contains(MaskOf(TextOf(text, c.span), c.policy), t)
    {
      MatchedBeside(text, c.span, NeighboursIn(text, c, matches), matches, t);
    }
  }

  lemma {:induction false} NothingLeaks(drafts: seq<Drafted>)
    requires forall i :: 0 <= i < |drafts| ==> !Leaks(drafts[i].draft)
    ensures RefusedOf(drafts) == []
  {
    if drafts != [] {
      NothingLeaks(drafts[..|drafts| - 1]);
    }
  }
}
