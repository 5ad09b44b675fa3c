/**
 Which stretches of a text a stored snippet shows in plain, and which it masks.

 A snippet is a window around one match. Every match in the window is masked, and so is
 any part of a copy of a matched secret that would otherwise stick out of a mask or of the
 window. Masks are identified by the span they replace.
 */
module Redaction {
  import opened Basics
  import opened Spans

  datatype Part = Context(span: Span) | Mask(span: Span)

  ghost predicate AllLong(secrets: seq<string>) {
    forall k :: 0 <= k < |secrets| ==> |secrets[k]| > 1
  }

  /** The part of the text a match covers. */
  function TextOf(text: string, s: Span): string
    requires s.end <= |text|
  {
    text[s.start..s.end]
  }

  function ContextWindow(length: nat, target: Span, contextChars: nat): (window: Span)
    requires target.end <= length
    ensures Within(target, window) && window.end <= length
  {
    RawSpan.Span(Max(0, target.start - contextChars), Min(length, target.end + contextChars))
  }

  /** `t` is the text of one of the spans, and longer than a character. */
  ghost predicate IsMatchedText(text: string, spans: seq<Span>, t: string) {
    |t| > 1 && exists j :: 0 <= j < |spans| && spans[j].end <= |text| && t == TextOf(text, spans[j])
  }

  /** Exactly the texts of the matches, single characters excluded. */
  ghost predicate AreMatchedTexts(text: string, target: Span, others: seq<Span>, secrets: seq<string>) {
    forall t :: t in secrets <==> IsMatchedText(text, [target] + others, t)
  }

  lemma OneMoreText(text: string, spans: seq<Span>, n: nat, t: string)
    requires n < |spans| && spans[n].end <= |text|
    ensures IsMatchedText(text, spans[..n + 1], t) <==>
            IsMatchedText(text, spans[..n], t) || (|t| > 1 && t == TextOf(text, spans[n]))
  {
    var upto: seq<Span>, before: seq<Span> := spans[..n + 1], spans[..n];
    assert upto[n] == spans[n] && forall j :: 0 <= j < n ==> upto[j] == before[j];
    if IsMatchedText(text, before, t) {
      var j :| 0 <= j < |before| && before[j].end <= |text| && t == TextOf(text, before[j]);
      assert upto[j] == before[j];
    }
  }

  /** The distinct texts of the spans that are longer than a character, in order of first appearance. */
  function SecretsOf(text: string, spans: seq<Span>): seq<string> {
    if spans == [] then []
    else
      var rest, last := SecretsOf(text, spans[..|spans| - 1]), spans[|spans| - 1];
      if last.end > |text| || |TextOf(text, last)| <= 1 || TextOf(text, last) in rest then rest
      else rest + [TextOf(text, last)]
  }

  lemma {:induction false} SecretsAre(text: string, spans: seq<Span>)
    requires forall s :: s in spans ==> s.end <= |text|
    ensures AllLong(SecretsOf(text, spans))
    ensures forall t :: t in SecretsOf(text, spans) <==> IsMatchedText(text, spans, t)
  {
    if spans != [] {
      var n := |spans| - 1;
      assert spans[n] in spans && spans[..n + 1] == spans;
      SecretsAre(text, spans[..n]);
      forall t ensures t in SecretsOf(text, spans) <==> IsMatchedText(text, spans, t) {
        OneMoreText(text, spans, n, t);
      }
    }
  }

  lemma SecretsOfMatches(text: string, target: Span, others: seq<Span>)
    requires target.end <= |text| && forall s :: s in others ==> s.end <= |text|
    ensures var secrets := SecretsOf(text, [target] + others);
            AllLong(secrets) && AreMatchedTexts(text, target, others, secrets)
  {
    SecretsAre(text, [target] + others);
  }

  /** The distinct texts of all matches. */
  method MatchedTexts(text: string, target: Span, others: seq<Span>) returns (secrets: seq<string>)
    requires target.end <= |text| && forall s :: s in others ==> s.end <= |text|
    ensures AllLong(secrets) && AreMatchedTexts(text, target, others, secrets)
    ensures secrets == SecretsOf(text, [target] + others)
  {
    secrets := [];
    var spans: seq<Span> := [target] + others;
    for n := 0 to |spans|
      invariant secrets == SecretsOf(text, spans[..n])
    {
      assert spans[..n + 1][..n] == spans[..n] && spans[n] in spans;
      var t := TextOf(text, spans[n]);
      if |t| > 1 && t !in secrets {
        secrets := secrets + [t];
      }
    }
    assert spans[..|spans|] == spans;
    SecretsOfMatches(text, target, others);
  }

  // ----- pulling the window's edges off copies -----

  ghost predicate NoCut(text: string, secrets: seq<string>, boundary: int) {
    forall k, i :: 0 <= k < |secrets| ==> !Cuts(text, secrets[k], boundary, i)
  }

  /** Whether the boundary cuts a copy of some secret. */
  predicate IsCut(text: string, secrets: seq<string>, boundary: nat) {
    exists k :: 0 <= k < |secrets| && |secrets[k]| > 1 && Straddler(text, boundary, secrets[k]).Some?
  }

  lemma CutOrClean(text: string, secrets: seq<string>, boundary: nat)
    requires AllLong(secrets)
    ensures IsCut(text, secrets, boundary) <==> !NoCut(text, secrets, boundary)
  {
  }

  /** The reference: step towards the target one position at a time, until nothing is cut. */
  function CleanEnd(text: string, secrets: seq<string>, end: nat, least: nat): nat {
    if end <= least || !IsCut(text, secrets, end) then end else CleanEnd(text, secrets, end - 1, least)
  }

  function CleanStart(text: string, secrets: seq<string>, start: nat, most: nat): nat
    decreases most - start
  {
    if start >= most || !IsCut(text, secrets, start) then start else CleanStart(text, secrets, start + 1, most)
  }

  lemma {:induction false} CleanEndIs(text: string, secrets: seq<string>, end0: nat, least: nat)
    requires AllLong(secrets) && least <= end0
    ensures var end := CleanEnd(text, secrets, end0, least);
            && least <= end <= end0 && (end == least || NoCut(text, secrets, end))
            && forall b :: end < b <= end0 ==> !NoCut(text, secrets, b)
  {
    CutOrClean(text, secrets, end0);
    if end0 > least {
      CleanEndIs(text, secrets, end0 - 1, least);
    }
  }

  lemma {:induction false} CleanStartIs(text: string, secrets: seq<string>, start0: nat, most: nat)
    requires AllLong(secrets) && start0 <= most
    ensures var start := CleanStart(text, secrets, start0, most);
            && start0 <= start <= most && (start == most || NoCut(text, secrets, start))
            && forall b :: start0 <= b < start ==> !NoCut(text, secrets, b)
    decreases most - start0
  {
    CutOrClean(text, secrets, start0);
    if start0 < most {
      CleanStartIs(text, secrets, start0 + 1, most);
    }
  }

  /** Every boundary inside a copy cuts it. */
  lemma InsideIsCut(text: string, secrets: seq<string>, k: nat, hit: Span, lo: int, hi: int)
    requires k < |secrets| && IsCopy(text, secrets[k], hit) && hit.start <= lo && hi <= hit.end
    ensures forall b :: lo < b < hi ==> !NoCut(text, secrets, b)
  {
    forall b | lo < b < hi ensures !NoCut(text, secrets, b) {
      assert Cuts(text, secrets[k], b, hit.start);
    }
  }

  /** Pull the right edge back until it cuts no copy, or until it reaches the target. */
  method ClipEnd(text: string, end0: nat, target: Span, secrets: seq<string>) returns (end: nat)
    requires target.end <= end0 && AllLong(secrets)
    ensures target.end <= end <= end0
    ensures end == target.end || NoCut(text, secrets, end)
    ensures forall b :: end < b <= end0 ==> !NoCut(text, secrets, b)
  {
    end := end0;
    var moved := true;
    while moved && end > target.end
      invariant target.end <= end <= end0
      invariant !moved ==> NoCut(text, secrets, end)
      invariant forall b :: end < b <= end0 ==> !NoCut(text, secrets, b)
      decreases end + if moved then 1 else 0
    {
      moved := false;
      var before := end;
      for k := 0 to |secrets|
        invariant target.end <= end <= before
        invariant moved ==> end < before
        invariant forall b :: end < b <= end0 ==> !NoCut(text, secrets, b)
        invariant !moved ==> end == before && forall j, i :: 0 <= j < k ==> !Cuts(text, secrets[j], end, i)
      {
        var hit := Straddler(text, end, secrets[k]);
        if hit.Some? {
          InsideIsCut(text, secrets, k, hit.value, hit.value.start, end + 1);
          end, moved := Max(hit.value.start, target.end), true;
        }
      }
    }
  }

  /** Push the left edge forward until it cuts no copy, or until it reaches the target. */
  method ClipStart(text: string, start0: nat, target: Span, secrets: seq<string>) returns (start: nat)
    requires start0 <= target.start && AllLong(secrets)
    ensures start0 <= start <= target.start
    ensures start == target.start || NoCut(text, secrets, start)
    ensures forall b :: start0 <= b < start ==> !NoCut(text, secrets, b)
  {
    start := start0;
    var moved := true;
    while moved && start < target.start
      invariant start0 <= start <= target.start
      invariant !moved ==> NoCut(text, secrets, start)
      invariant forall b :: start0 <= b < start ==> !NoCut(text, secrets, b)
      decreases target.start - start + if moved then 1 else 0
    {
      moved := false;
      var before := start;
      for k := 0 to |secrets|
        invariant before <= start <= target.start
        invariant moved ==> start > before
        invariant forall b :: start0 <= b < start ==> !NoCut(text, secrets, b)
        invariant !moved ==> start == before && forall j, i :: 0 <= j < k ==> !Cuts(text, secrets[j], start, i)
      {
        var hit := Straddler(text, start, secrets[k]);
        if hit.Some? {
          InsideIsCut(text, secrets, k, hit.value, start - 1, hit.value.end);
          start, moved := Min(hit.value.end, target.start), true;
        }
      }
    }
  }

  /** The clipped window is the widest around the target whose own edges cut no copy. */
  ghost predicate Clipped(text: string, secrets: seq<string>, window: Span, target: Span, clipped: Span) {
    && Within(target, clipped) && Within(clipped, window)
    && (clipped.end == target.end || NoCut(text, secrets, clipped.end))
    && (clipped.start == target.start || NoCut(text, secrets, clipped.start))
    && (forall b :: clipped.end < b <= window.end ==> !NoCut(text, secrets, b))
    && (forall b :: window.start <= b < clipped.start ==> !NoCut(text, secrets, b))
  }

  function ClippedWindow(text: string, window: Span, target: Span, secrets: seq<string>): RawSpan {
    RawSpan.Span(CleanStart(text, secrets, window.start, target.start), CleanEnd(text, secrets, window.end, target.end))
  }

  lemma ClippedWindowIs(text: string, window: Span, target: Span, secrets: seq<string>)
    requires Within(target, window) && AllLong(secrets)
    ensures var clipped := ClippedWindow(text, window, target, secrets);
            clipped.start < clipped.end && Clipped(text, secrets, window, target, clipped)
  {
    CleanEndIs(text, secrets, window.end, target.end);
    CleanStartIs(text, secrets, window.start, target.start);
  }

  /** Only one window is the widest clean one. */
  lemma ClippedIsUnique(text: string, secrets: seq<string>, window: Span, target: Span, a: Span, b: Span)
    requires Clipped(text, secrets, window, target, a) && Clipped(text, secrets, window, target, b)
    ensures a == b
  {
    assert a.end < b.end ==> !NoCut(text, secrets, b.end);
    assert b.end < a.end ==> !NoCut(text, secrets, a.end);
    assert b.start < a.start ==> !NoCut(text, secrets, b.start);
    assert a.start < b.start ==> !NoCut(text, secrets, a.start);
  }

  method ClipToSecretBoundaries(text: string, window: Span, target: Span, secrets: seq<string>)
    returns (clipped: Span)
    requires Within(target, window) && AllLong(secrets)
    ensures Clipped(text, secrets, window, target, clipped)
    ensures clipped == ClippedWindow(text, window, target, secrets)
  {
    ClippedWindowIs(text, window, target, secrets);
    clipped := window;
    if secrets != [] {
      var end := ClipEnd(text, window.end, target, secrets);
      var start := ClipStart(text, window.start, target, secrets);
      clipped := RawSpan.Span(start, end);
    }
    ClippedIsUnique(text, secrets, window, target, clipped, ClippedWindow(text, window, target, secrets));
  }

  // ----- merging spans and finding what they leave open -----

  /** In order, with at least one uncovered position between neighbours. */
  predicate NonTouching(spans: seq<Span>) {
    forall i, j :: 0 <= i < j < |spans| ==> spans[i].end < spans[j].start
  }

  /** Add one more span: join it to the last range it touches, or start a new one. */
  function MergeStep(merged: seq<Span>, span: Span): seq<Span> {
    if merged == [] || span.start > merged[|merged| - 1].end then merged + [span]
    else
      var last: Span := merged[|merged| - 1];
      merged[..|merged| - 1] + [RawSpan.Span(last.start, Max(last.end, span.end))]
  }

  lemma MergeStepIs(merged: seq<Span>, span: Span)
    requires NonTouching(merged) && (merged != [] ==> merged[|merged| - 1].start <= span.start)
    ensures var more := MergeStep(merged, span);
            && NonTouching(more) && more != [] && more[|more| - 1].start <= span.start
            && forall x :: Covered(more, x) <==> Covered(merged, x) || Has(span, x)
  {
    var more: seq<Span> := MergeStep(merged, span);
    forall x ensures Covered(more, x) <==> Covered(merged, x) || Has(span, x) {
      if merged == [] || span.start > merged[|merged| - 1].end {
        AppendCovers(merged, span, x);
      } else {
        var last: Span := merged[|merged| - 1];
        JoinedCovers(merged, span, RawSpan.Span(last.start, Max(last.end, span.end)), x);
      }
    }
  }

  function MergedOf(sorted: seq<Span>): seq<Span> {
    if sorted == [] then [] else MergeStep(MergedOf(sorted[..|sorted| - 1]), sorted[|sorted| - 1])
  }

  lemma {:induction false} MergedIs(sorted: seq<Span>)
    requires SortedByStart(sorted)
    ensures var merged := MergedOf(sorted);
            && NonTouching(merged)
            && (merged != [] ==> sorted != [] && merged[|merged| - 1].start <= sorted[|sorted| - 1].start)
            && forall x :: Covered(merged, x) <==> Covered(sorted, x)
  {
    if sorted != [] {
      var before: seq<Span>, last: Span := sorted[..|sorted| - 1], sorted[|sorted| - 1];
      assert sorted == before + [last];
      MergedIs(before);
      MergeStepIs(MergedOf(before), last);
      forall x ensures Covered(sorted, x) <==> Covered(before, x) || Has(last, x) {
        AppendCovers(before, last, x);
      }
    }
  }

  lemma MergedCovers(spans: seq<Span>)
    ensures NonTouching(MergedOf(SortByStart(spans)))
    ensures forall x :: Covered(MergedOf(SortByStart(spans)), x) <==> Covered(spans, x)
  {
    SortByStartSorts(spans);
    MergedIs(SortByStart(spans));
    forall x ensures Covered(SortByStart(spans), x) <==> Covered(spans, x) {
      CoveredSame(SortByStart(spans), spans, x);
    }
  }

  method MergeOne(merged: seq<Span>, span: Span) returns (more: seq<Span>)
    ensures more == MergeStep(merged, span)
  {
    if merged != [] && span.start <= merged[|merged| - 1].end {
      var last: Span := merged[|merged| - 1];
      more := merged[..|merged| - 1] + [RawSpan.Span(last.start, Max(last.end, span.end))];
    } else {
      more := merged + [span];
    }
  }

  /** The spans combined into non-touching ranges, in order. */
  method Merged(spans: seq<Span>) returns (merged: seq<Span>)
    ensures NonTouching(merged)
    ensures forall x :: Covered(merged, x) <==> Covered(spans, x)
    ensures merged == MergedOf(SortByStart(spans))
  {
    var sorted: seq<Span> := SortByStart(spans);
    merged := [];
    for i := 0 to |sorted|
      invariant merged == MergedOf(sorted[..i])
    {
      assert sorted[..i + 1][..i] == sorted[..i];
      merged := MergeOne(merged, sorted[i]);
    }
    assert sorted[..|sorted|] == sorted;
    MergedCovers(spans);
  }

  lemma AppendCovers(spans: seq<Span>, s: Span, x: int)
    ensures Covered(spans + [s], x) <==> Covered(spans, x) || Has(s, x)
  {
    CoveredConcat(spans, [s], x);
    if Has(s, x) {
      assert s in [s];
    }
  }

  lemma JoinedCovers(before: seq<Span>, span: Span, joined: Span, x: int)
    requires before != []
    requires var last := before[|before| - 1];
             && last.start <= span.start <= last.end
             && joined == RawSpan.Span(last.start, Max(last.end, span.end))
    ensures Covered(before[..|before| - 1] + [joined], x) <==> Covered(before, x) || Has(span, x)
  {
    var rest: seq<Span>, last: Span := before[..|before| - 1], before[|before| - 1];
    assert before == rest + [last];
    AppendCovers(rest, last, x);
    AppendCovers(rest, joined, x);
  }

  /** The gaps from the cursor on, past the first `k` masked ranges. */
  function GapsFrom(covered: seq<Span>, k: nat, cursor: nat, limit: int): seq<Span>
    requires k <= |covered|
    decreases |covered| - k
  {
    if k == |covered| || covered[k].start >= limit || cursor >= limit then
      if cursor < limit then [RawSpan.Span(cursor, limit)] else []
    else if covered[k].end <= cursor then GapsFrom(covered, k + 1, cursor, limit)
    else
      (if covered[k].start > cursor then [RawSpan.Span(cursor, covered[k].start)] else []) +
      GapsFrom(covered, k + 1, covered[k].end, limit)
  }

  /** The positions from the cursor to the limit that are not covered. */
  ghost predicate Open(covered: seq<Span>, cursor: nat, limit: int, x: int) {
    cursor <= x < limit && !Covered(covered, x)
  }

  lemma {:induction false} GapsFromAre(covered: seq<Span>, k: nat, cursor: nat, limit: int)
    requires NonTouching(covered) && k <= |covered| && forall j :: 0 <= j < k ==> covered[j].end <= cursor
    ensures forall x :: Covered(GapsFrom(covered, k, cursor, limit), x) <==> Open(covered, cursor, limit, x)
    decreases |covered| - k
  {
    if k == |covered| || covered[k].start >= limit || cursor >= limit {
      LastGap(covered, k, cursor, limit);
    } else if covered[k].end <= cursor {
      GapsFromAre(covered, k + 1, cursor, limit);
    } else {
      GapsFromAre(covered, k + 1, covered[k].end, limit);
      NextGap(covered, k, cursor, limit, GapsFrom(covered, k + 1, covered[k].end, limit));
    }
  }

  lemma LastGap(covered: seq<Span>, k: nat, cursor: nat, limit: int)
    requires NonTouching(covered) && k <= |covered| && forall j :: 0 <= j < k ==> covered[j].end <= cursor
    requires k == |covered| || covered[k].start >= limit || cursor >= limit
    ensures var gaps: seq<Span> := if cursor < limit then [RawSpan.Span(cursor, limit)] else [];
            forall x :: Covered(gaps, x) <==> Open(covered, cursor, limit, x)
  {
    var gaps: seq<Span> := if cursor < limit then [RawSpan.Span(cursor, limit)] else [];
    forall x ensures Covered(gaps, x) <==> Open(covered, cursor, limit, x) {
      if cursor <= x < limit {
        OpenBetween(covered, k, cursor, x);
        assert Has(gaps[0], x) && gaps[0] in gaps;
      }
    }
  }

  lemma NextGap(covered: seq<Span>, k: nat, cursor: nat, limit: int, rest: seq<Span>)
    requires NonTouching(covered) && k < |covered| && forall j :: 0 <= j < k ==> covered[j].end <= cursor
    requires covered[k].start < limit && cursor < covered[k].end
    requires forall x :: Covered(rest, x) <==> Open(covered, covered[k].end, limit, x)
    ensures var first: seq<Span> := if covered[k].start > cursor then [RawSpan.Span(cursor, covered[k].start)] else [];
            forall x :: Covered(first + rest, x) <==> Open(covered, cursor, limit, x)
  {
    var first: seq<Span> := if covered[k].start > cursor then [RawSpan.Span(cursor, covered[k].start)] else [];
    forall x ensures Covered(first + rest, x) <==> Open(covered, cursor, limit, x) {
      CoveredConcat(first, rest, x);
      if cursor <= x < covered[k].start {
        OpenBetween(covered, k, cursor, x);
        assert Has(first[0], x) && first[0] in first;
      } else if covered[k].start <= x < covered[k].end {
        assert Has(covered[k], x) && covered[k] in covered;
      }
    }
  }

  function UncoveredOf(copy: Span, covered: seq<Span>, window: Span): seq<Span> {
    GapsFrom(covered, 0, Max(copy.start, window.start), Min(copy.end, window.end))
  }

  function GapBefore(s: Span, cursor: nat): seq<Span> {
    if cursor < s.start then [RawSpan.Span(cursor, s.start)] else []
  }

  lemma GapStep(gaps: seq<Span>, covered: seq<Span>, k: nat, cursor: nat, limit: int)
    requires k < |covered| && covered[k].start < limit && cursor < limit
    ensures var next := if cursor < covered[k].end then covered[k].end else cursor;
            gaps + GapsFrom(covered, k, cursor, limit) ==
            gaps + GapBefore(covered[k], cursor) + GapsFrom(covered, k + 1, next, limit)
  {
    var rest: seq<Span> := GapsFrom(covered, k + 1, if cursor < covered[k].end then covered[k].end else cursor, limit);
    assert GapsFrom(covered, k, cursor, limit) == GapBefore(covered[k], cursor) + rest;
    Regrouped(gaps, GapBefore(covered[k], cursor), rest);
  }

  /** Walk the masked ranges, collecting what lies between them. */
  method CollectGaps(covered: seq<Span>, start: nat, limit: int) returns (gaps: seq<Span>)
    ensures gaps == GapsFrom(covered, 0, start, limit)
  {
    gaps := [];
    var cursor: nat := start;
    var k := 0;
    while k < |covered| && covered[k].start < limit && cursor < limit
      invariant 0 <= k <= |covered|
      invariant GapsFrom(covered, 0, start, limit) == gaps + GapsFrom(covered, k, cursor, limit)
    {
      GapStep(gaps, covered, k, cursor, limit);
      if covered[k].end > cursor {
        if covered[k].start > cursor {
          gaps := gaps + [RawSpan.Span(cursor, covered[k].start)];
        }
        cursor := covered[k].end;
      }
      k := k + 1;
    }
    if cursor < limit {
      gaps := gaps + [RawSpan.Span(cursor, limit)];
    }
  }

  /** The parts of a copy inside the window that no mask hides. */
  method Uncovered(copy: Span, covered: seq<Span>, window: Span) returns (gaps: seq<Span>)
    requires NonTouching(covered)
    ensures forall x :: Covered(gaps, x) <==> Has(copy, x) && Has(window, x) && !Covered(covered, x)
    ensures gaps == UncoveredOf(copy, covered, window)
  {
    gaps := CollectGaps(covered, Max(copy.start, window.start), Min(copy.end, window.end));
    UncoveredIs(copy, covered, window);
  }

  lemma UncoveredIs(copy: Span, covered: seq<Span>, window: Span)
    requires NonTouching(covered)
    ensures forall x :: Covered(UncoveredOf(copy, covered, window), x) <==>
                        Has(copy, x) && Has(window, x) && !Covered(covered, x)
  {
    GapsFromAre(covered, 0, Max(copy.start, window.start), Min(copy.end, window.end));
  }

  lemma OpenBetween(covered: seq<Span>, k: nat, cursor: nat, x: int)
    requires NonTouching(covered) && k <= |covered|
    requires forall j :: 0 <= j < k ==> covered[j].end <= cursor
    requires cursor <= x && (k < |covered| ==> x < covered[k].start)
    ensures !Covered(covered, x)
  {
    forall s | s in covered ensures !Has(s, x) {
      var j :| 0 <= j < |covered| && covered[j] == s;
      if j > k { assert covered[k].end < covered[j].start; }
    }
  }

  // ----- masking the exposed parts of copies -----

  /** A copy starting at `i` has some position the spans already hide. */
  ghost predicate Touched(secret: string, i: int, covered: seq<Span>) {
    exists y :: i <= y < i + |secret| && Covered(covered, y)
  }

  /** Position `x` belongs to a copy of `secret` that runs into a mask. */
  ghost predicate Exposed(text: string, secret: string, covered: seq<Span>, x: int) {
    exists i :: OccursAt(text, secret, i) && i <= x < i + |secret| && Touched(secret, i, covered)
  }

  lemma TouchedIsOverlap(secret: string, copy: Span, covered: seq<Span>)
    requires copy.end == copy.start + |secret|
    ensures Touched(secret, copy.start, covered) <==> exists s :: s in covered && Overlaps(copy, s)
  {
    if Touched(secret, copy.start, covered) {
      var y :| copy.start <= y < copy.end && Covered(covered, y);
      var s :| s in covered && Has(s, y);
      assert Overlaps(copy, s);
    }
    if exists s :: s in covered && Overlaps(copy, s) {
      var s :| s in covered && Overlaps(copy, s);
      OverlapIsSharedPosition(copy, s);
      var y :| Has(copy, y) && Has(s, y);
      assert Covered(covered, y);
    }
  }

  predicate TouchesSome(copy: Span, covered: seq<Span>) {
    exists s :: s in covered && Overlaps(copy, s)
  }

  function CopyGapsOf(copies: seq<Span>, covered: seq<Span>, window: Span): seq<Span> {
    if copies == [] then []
    else
      var rest, last := CopyGapsOf(copies[..|copies| - 1], covered, window), copies[|copies| - 1];
      if TouchesSome(last, covered) then rest + UncoveredOf(last, covered, window) else rest
  }

  /** Position `x` is in a copy of the list that touches a mask. */
  ghost predicate InTouched(copies: seq<Span>, covered: seq<Span>, x: int) {
    exists m :: 0 <= m < |copies| && Has(copies[m], x) && TouchesSome(copies[m], covered)
  }

  lemma OneMoreTouched(copies: seq<Span>, covered: seq<Span>, x: int)
    requires copies != []
    ensures var n := |copies| - 1;
            InTouched(copies, covered, x) <==>
            InTouched(copies[..n], covered, x) || (Has(copies[n], x) && TouchesSome(copies[n], covered))
  {
    var n := |copies| - 1;
    var before: seq<Span> := copies[..n];
    if InTouched(before, covered, x) {
      var m :| 0 <= m < |before| && Has(before[m], x) && TouchesSome(before[m], covered);
      assert copies[m] == before[m];
    }
    if InTouched(copies, covered, x) {
      var m :| 0 <= m < |copies| && Has(copies[m], x) && TouchesSome(copies[m], covered);
      assert m < n ==> before[m] == copies[m];
    }
  }

  lemma {:induction false} CopyGapsAre(copies: seq<Span>, covered: seq<Span>, window: Span)
    requires NonTouching(covered)
    ensures forall x :: Covered(CopyGapsOf(copies, covered, window), x) <==>
                        Has(window, x) && !Covered(covered, x) && InTouched(copies, covered, x)
  {
    if copies != [] {
      var before: seq<Span>, last: Span := copies[..|copies| - 1], copies[|copies| - 1];
      CopyGapsAre(before, covered, window);
      UncoveredIs(last, covered, window);
      forall x ensures Covered(CopyGapsOf(copies, covered, window), x) <==>
                       Has(window, x) && !Covered(covered, x) && InTouched(copies, covered, x)
      {
        OneMoreTouched(copies, covered, x);
        CoveredConcat(CopyGapsOf(before, covered, window), UncoveredOf(last, covered, window), x);
      }
    }
  }

  lemma CopyIsListed(text: string, secret: string, window: Span, i: int, x: int) returns (m: nat)
    requires |secret| > 1 && Has(window, x) && OccursAt(text, secret, i) && i <= x < i + |secret|
    ensures m < |OccurrencesIn(text, secret, window)|
    ensures OccurrencesIn(text, secret, window)[m] == RawSpan.Span(i, i + |secret|)
  {
    var copies, copy := OccurrencesIn(text, secret, window), RawSpan.Span(i, i + |secret|);
    OccurrencesAre(text, secret, window);
    assert IsCopy(text, secret, copy) && Overlaps(copy, window);
    m :| 0 <= m < |copies| && copies[m] == copy;
  }

  lemma ExposedIsTouched(text: string, secret: string, covered: seq<Span>, window: Span, x: int)
    requires |secret| > 1 && Has(window, x) && Exposed(text, secret, covered, x)
    ensures InTouched(OccurrencesIn(text, secret, window), covered, x)
  {
    var i :| OccursAt(text, secret, i) && i <= x < i + |secret| && Touched(secret, i, covered);
    var m := CopyIsListed(text, secret, window, i, x);
    TouchedIsOverlap(secret, RawSpan.Span(i, i + |secret|), covered);
  }

  /** In the window, being in a listed copy that touches a mask is being exposed. */
  lemma TouchedIsExposed(text: string, secret: string, covered: seq<Span>, window: Span, x: int)
    requires |secret| > 1 && Has(window, x)
    ensures InTouched(OccurrencesIn(text, secret, window), covered, x) <==> Exposed(text, secret, covered, x)
  {
    var copies := OccurrencesIn(text, secret, window);
    if InTouched(copies, covered, x) {
      OccurrencesAre(text, secret, window);
      var m :| 0 <= m < |copies| && Has(copies[m], x) && TouchesSome(copies[m], covered);
      assert copies[m] in copies && IsCopy(text, secret, copies[m]);
      TouchedIsOverlap(secret, copies[m], covered);
    }
    if Exposed(text, secret, covered, x) {
      ExposedIsTouched(text, secret, covered, window, x);
    }
  }

  method CopyGaps(text: string, secret: string, covered: seq<Span>, window: Span) returns (gaps: seq<Span>)
    requires |secret| > 1 && NonTouching(covered)
    ensures gaps == CopyGapsOf(OccurrencesIn(text, secret, window), covered, window)
    ensures forall x :: Covered(gaps, x) <==>
              Has(window, x) && !Covered(covered, x) && Exposed(text, secret, covered, x)
  {
    gaps := [];
    var copies := Occurrences(text, secret, window);
    for n := 0 to |copies|
      invariant gaps == CopyGapsOf(copies[..n], covered, window)
    {
      assert copies[..n + 1][..n] == copies[..n];
      if TouchesSome(copies[n], covered) {
        var more: seq<Span> := Uncovered(copies[n], covered, window);
        gaps := gaps + more;
      }
    }
    assert copies[..|copies|] == copies;
    ExposedGaps(text, secret, covered, window);
  }

  lemma ExposedGaps(text: string, secret: string, covered: seq<Span>, window: Span)
    requires |secret| > 1 && NonTouching(covered)
    ensures forall x :: Covered(CopyGapsOf(OccurrencesIn(text, secret, window), covered, window), x) <==>
                        Has(window, x) && !Covered(covered, x) && Exposed(text, secret, covered, x)
  {
    var copies := OccurrencesIn(text, secret, window);
    CopyGapsAre(copies, covered, window);
    forall x | Has(window, x) ensures InTouched(copies, covered, x) <==> Exposed(text, secret, covered, x) {
      TouchedIsExposed(text, secret, covered, window, x);
    }
  }

  function RoundGapsOf(text: string, secrets: seq<string>, covered: seq<Span>, window: Span): seq<Span> {
    if secrets == [] then []
    else
      var rest, last := RoundGapsOf(text, secrets[..|secrets| - 1], covered, window), secrets[|secrets| - 1];
      if last == "" then rest else rest + CopyGapsOf(OccurrencesIn(text, last, window), covered, window)
  }

  ghost predicate ExposedBySome(text: string, secrets: seq<string>, covered: seq<Span>, x: int) {
    exists k :: 0 <= k < |secrets| && Exposed(text, secrets[k], covered, x)
  }

  lemma OneMoreExposed(text: string, secrets: seq<string>, covered: seq<Span>, x: int)
    requires secrets != []
    ensures var n := |secrets| - 1;
            ExposedBySome(text, secrets, covered, x) <==>
            ExposedBySome(text, secrets[..n], covered, x) || Exposed(text, secrets[n], covered, x)
  {
    var n := |secrets| - 1;
    var before := secrets[..n];
    if ExposedBySome(text, before, covered, x) {
      var k :| 0 <= k < |before| && Exposed(text, before[k], covered, x);
      assert secrets[k] == before[k];
    }
    if ExposedBySome(text, secrets, covered, x) {
      var k :| 0 <= k < |secrets| && Exposed(text, secrets[k], covered, x);
      assert k < n ==> before[k] == secrets[k];
    }
  }

  lemma {:induction false} RoundGapsAre(text: string, secrets: seq<string>, covered: seq<Span>, window: Span)
    requires AllLong(secrets) && NonTouching(covered)
    ensures forall x :: Covered(RoundGapsOf(text, secrets, covered, window), x) <==>
                        Has(window, x) && !Covered(covered, x) && ExposedBySome(text, secrets, covered, x)
  {
    if secrets != [] {
      var before, last := secrets[..|secrets| - 1], secrets[|secrets| - 1];
      RoundGapsAre(text, before, covered, window);
      ExposedGaps(text, last, covered, window);
      forall x ensures Covered(RoundGapsOf(text, secrets, covered, window), x) <==>
                       Has(window, x) && !Covered(covered, x) && ExposedBySome(text, secrets, covered, x)
      {
        OneMoreExposed(text, secrets, covered, x);
        CoveredConcat(RoundGapsOf(text, before, covered, window),
                      CopyGapsOf(OccurrencesIn(text, last, window), covered, window), x);
      }
    }
  }

  method RoundGaps(text: string, secrets: seq<string>, covered: seq<Span>, window: Span)
    returns (gaps: seq<Span>)
    requires AllLong(secrets) && NonTouching(covered)
    ensures gaps == RoundGapsOf(text, secrets, covered, window)
    ensures forall x :: Covered(gaps, x) <==>
              Has(window, x) && !Covered(covered, x) && ExposedBySome(text, secrets, covered, x)
  {
    gaps := [];
    for n := 0 to |secrets|
      invariant gaps == RoundGapsOf(text, secrets[..n], covered, window)
    {
      assert secrets[..n + 1][..n] == secrets[..n];
      var more: seq<Span> := CopyGaps(text, secrets[n], covered, window);
      gaps := gaps + more;
    }
    assert secrets[..|secrets|] == secrets;
    RoundGapsAre(text, secrets, covered, window);
  }


  /** A copy starting at `i` has some position in the set. */
  ghost predicate Reaches(secret: string, i: int, masked: iset<int>) {
    exists y :: i <= y < i + |secret| && y in masked
  }

  /** Some copy holding `x` has a position in the set. */
  ghost predicate Joins(text: string, secrets: seq<string>, masked: iset<int>, x: int) {
    exists k, i :: && 0 <= k < |secrets| && OccursAt(text, secrets[k], i)
                   && i <= x < i + |secrets[k]| && Reaches(secrets[k], i, masked)
  }

  /**
   The reference: what is masked after `n` rounds. A position of the window joins as soon as
   some copy holding it has a position already masked.
   */
  ghost function MaskedAfter(text: string, secrets: seq<string>, plan: seq<Span>, window: Span, n: nat)
    : iset<int>
  {
    if n == 0 then iset x | Covered(plan, x)
    else
      var before := MaskedAfter(text, secrets, plan, window, n - 1);
      before + iset x | Has(window, x) && Joins(text, secrets, before, x)
  }

  /** No copy that reaches the window and touches a mask has an unmasked position in it. */
  ghost predicate Settled(text: string, secrets: seq<string>, plan: seq<Span>, window: Span) {
    forall k, x :: 0 <= k < |secrets| && Has(window, x) && Exposed(text, secrets[k], plan, x) ==>
      Covered(plan, x)
  }

  lemma ExposedSame(text: string, secret: string, a: seq<Span>, b: seq<Span>, x: int)
    requires forall y :: Covered(a, y) <==> Covered(b, y)
    ensures Exposed(text, secret, a, x) <==> Exposed(text, secret, b, x)
  {
    if Exposed(text, secret, a, x) {
      var i :| OccursAt(text, secret, i) && i <= x < i + |secret| && Touched(secret, i, a);
      assert Touched(secret, i, b);
    }
    if Exposed(text, secret, b, x) {
      var i :| OccursAt(text, secret, i) && i <= x < i + |secret| && Touched(secret, i, b);
      assert Touched(secret, i, a);
    }
  }

  /** The spans mask exactly what the reference masks in `n` rounds. */
  ghost predicate MasksAsAfter(text: string, secrets: seq<string>, plan: seq<Span>, window: Span,
                               n: nat, spans: seq<Span>)
  {
    forall x :: Covered(spans, x) <==> x in MaskedAfter(text, secrets, plan, window, n)
  }

  lemma JoinsIsExposed(text: string, secrets: seq<string>, now: seq<Span>, masked: iset<int>, x: int)
    requires forall y :: Covered(now, y) <==> y in masked
    ensures Joins(text, secrets, masked, x) <==>
            exists k :: 0 <= k < |secrets| && Exposed(text, secrets[k], now, x)
  {
    if exists k :: 0 <= k < |secrets| && Exposed(text, secrets[k], now, x) {
      var k :| 0 <= k < |secrets| && Exposed(text, secrets[k], now, x);
      var i :| OccursAt(text, secrets[k], i) && i <= x < i + |secrets[k]| && Touched(secrets[k], i, now);
      assert Reaches(secrets[k], i, masked);
    }
    if Joins(text, secrets, masked, x) {
      var k, i :| && 0 <= k < |secrets| && OccursAt(text, secrets[k], i)
                  && i <= x < i + |secrets[k]| && Reaches(secrets[k], i, masked);
      assert Touched(secrets[k], i, now);
      assert Exposed(text, secrets[k], now, x);
    }
  }

  /** The masked positions of the window. */
  ghost function MaskedIn(spans: seq<Span>, window: Span): (masked: set<int>)
    ensures |masked| <= window.end - window.start
  {
    var masked := set x | window.start <= x < window.end && Covered(spans, x);
    RangeSize(masked, window.start, window.end);
    masked
  }

  /** How much of the window is still open. */
  ghost function Unmasked(spans: seq<Span>, window: Span): nat {
    window.end - window.start - |MaskedIn(spans, window)|
  }

  lemma {:induction false} RangeSize(s: set<int>, lo: int, hi: int)
    requires lo <= hi && forall x :: x in s ==> lo <= x < hi
    ensures |s| <= hi - lo
    decreases hi - lo
  {
    if lo == hi {
      assert s == {};
    } else {
      RangeSize(s - {hi - 1}, lo, hi - 1);
    }
  }

  lemma MoreMasked(before: seq<Span>, gaps: seq<Span>, window: Span)
    requires gaps != []
    requires forall x :: Covered(gaps, x) ==> Has(window, x) && !Covered(before, x)
    ensures |MaskedIn(before + gaps, window)| > |MaskedIn(before, window)|
  {
    var x := gaps[0].start;
    assert Has(gaps[0], x) && Covered(gaps, x);
    CoveredConcat(before, gaps, x);
    var small, large := MaskedIn(before, window), MaskedIn(before + gaps, window);
    forall y | y in small ensures y in large { CoveredConcat(before, gaps, y); }
    assert x in large && x !in small;
    SubsetIsSmaller(small, large - {x});
  }

  datatype Masking = Masked(plan: seq<Span>) | Unsettled

  /** Positions the next round would mask. */
  ghost predicate Due(text: string, secrets: seq<string>, window: Span, now: seq<Span>, x: int) {
    Has(window, x) && !Covered(now, x) && exists k :: 0 <= k < |secrets| && Exposed(text, secrets[k], now, x)
  }

  /** What one round adds, as a list. */
  function RoundOf(text: string, secrets: seq<string>, window: Span, now: seq<Span>): seq<Span> {
    RoundGapsOf(text, secrets, MergedOf(SortByStart(now)), window)
  }

  lemma RoundIs(text: string, secrets: seq<string>, window: Span, now: seq<Span>)
    requires AllLong(secrets)
    ensures forall x :: Covered(RoundOf(text, secrets, window, now), x) <==> Due(text, secrets, window, now, x)
  {
    var covered: seq<Span> := MergedOf(SortByStart(now));
    MergedCovers(now);
    RoundGapsAre(text, secrets, covered, window);
    forall x ensures Covered(RoundOf(text, secrets, window, now), x) <==> Due(text, secrets, window, now, x) {
      RoundAgrees(text, secrets, covered, now, x);
    }
  }

  method Round(text: string, secrets: seq<string>, window: Span, now: seq<Span>) returns (additions: seq<Span>)
    requires AllLong(secrets)
    ensures forall x :: Covered(additions, x) <==> Due(text, secrets, window, now, x)
    ensures additions == RoundOf(text, secrets, window, now)
  {
    var covered: seq<Span> := Merged(now);
    additions := RoundGaps(text, secrets, covered, window);
    RoundIs(text, secrets, window, now);
  }

  /** The rounds as a function of the plan they start from. */
  function RoundIn(text: string, secrets: seq<string>, window: Span): seq<Span> -> seq<Span> {
    (now: seq<Span>) => RoundOf(text, secrets, window, now)
  }

  /** The plan after at most `rounds` rounds, fewer when one adds nothing. */
  function Iterated(round: seq<Span> -> seq<Span>, now: seq<Span>, rounds: nat): seq<Span>
    decreases rounds
  {
    if rounds == 0 || round(now) == [] then now else Iterated(round, now + round(now), rounds - 1)
  }

  /** How many rounds the bound allows. */
  function RoundsFor(window: Span): nat {
    window.end - window.start + 1
  }

  /** The plan once no round adds anything, within the bound. */
  function SettledOf(text: string, secrets: seq<string>, window: Span, plan: seq<Span>): seq<Span> {
    Iterated(RoundIn(text, secrets, window), plan, RoundsFor(window))
  }

  lemma RoundProgress(text: string, secrets: seq<string>, window: Span, now: seq<Span>)
    requires AllLong(secrets) && RoundOf(text, secrets, window, now) != []
    ensures Unmasked(now + RoundOf(text, secrets, window, now), window) < Unmasked(now, window)
  {
    RoundIs(text, secrets, window, now);
    MoreMasked(now, RoundOf(text, secrets, window, now), window);
  }

  lemma RoundWithin(text: string, secrets: seq<string>, window: Span, now: seq<Span>)
    requires AllLong(secrets)
    ensures forall s :: s in RoundOf(text, secrets, window, now) ==> Within(s, window)
  {
    RoundIs(text, secrets, window, now);
    GapsWithin(RoundOf(text, secrets, window, now), window);
  }

  // Three facts about iterating any function that adds spans.

  lemma {:induction false} IteratedGrows(round: seq<Span> -> seq<Span>, now: seq<Span>, rounds: nat, window: Span)
    requires forall now, s :: s in round(now) ==> Within(s, window)
    ensures var last := Iterated(round, now, rounds);
            now <= last && forall s :: s in last[|now|..] ==> Within(s, window)
    decreases rounds
  {
    if rounds > 0 && round(now) != [] {
      var next: seq<Span>, last: seq<Span> := now + round(now), Iterated(round, now + round(now), rounds - 1);
      IteratedGrows(round, next, rounds - 1, window);
      assert last[|now|..] == round(now) + last[|next|..];
    }
  }

  lemma {:induction false} IteratedEnds(round: seq<Span> -> seq<Span>, left: seq<Span> -> nat, now: seq<Span>,
                                        rounds: nat)
    requires forall now :: round(now) != [] ==> left(now + round(now)) < left(now)
    requires rounds > left(now)
    ensures round(Iterated(round, now, rounds)) == []
    decreases rounds
  {
    if round(now) != [] {
      IteratedEnds(round, left, now + round(now), rounds - 1);
    }
  }

  lemma {:induction false} IteratedKeeps(round: seq<Span> -> seq<Span>, left: seq<Span> -> nat,
                                         holds: (nat, seq<Span>) -> bool, n: nat, now: seq<Span>, rounds: nat)
    requires forall now :: round(now) != [] ==> left(now + round(now)) < left(now)
    requires forall n: nat, now :: holds(n, now) ==> holds(n + 1, now + round(now))
    requires rounds > left(now) && holds(n, now)
    ensures exists m: nat :: m <= n + left(now) && holds(m, Iterated(round, now, rounds))
    decreases rounds
  {
    if round(now) == [] {
      assert holds(n, Iterated(round, now, rounds));
    } else {
      IteratedKeeps(round, left, holds, n + 1, now + round(now), rounds - 1);
      var m: nat :| && m <= n + 1 + left(now + round(now))
                    && holds(m, Iterated(round, now + round(now), rounds - 1));
      assert m <= n + left(now) && holds(m, Iterated(round, now, rounds));
    }
  }

  /**
   The rounds settle within the bound, whatever they start from: no exposed part is left, the
   plan is kept, and exactly what the reference masks has been added.
   */
  lemma SettledIs(text: string, secrets: seq<string>, plan: seq<Span>, window: Span)
    requires AllLong(secrets)
    ensures var settled := SettledOf(text, secrets, window, plan);
            && plan <= settled && (forall s :: s in settled[|plan|..] ==> Within(s, window))
            && Settled(text, secrets, settled, window)
            && exists n: nat ::
                 n <= window.end - window.start && MasksAsAfter(text, secrets, plan, window, n, settled)
  {
    SettledGrows(text, secrets, plan, window);
    SettledEnds(text, secrets, plan, window);
    SettledInTime(text, secrets, plan, window);
  }

  lemma SettledGrows(text: string, secrets: seq<string>, plan: seq<Span>, window: Span)
    requires AllLong(secrets)
    ensures var settled := SettledOf(text, secrets, window, plan);
            plan <= settled && forall s :: s in settled[|plan|..] ==> Within(s, window)
  {
    var round := RoundIn(text, secrets, window);
    forall now ensures forall s :: s in round(now) ==> Within(s, window) {
      RoundWithin(text, secrets, window, now);
    }
    IteratedGrows(round, plan, RoundsFor(window), window);
  }

  lemma SettledEnds(text: string, secrets: seq<string>, plan: seq<Span>, window: Span)
    requires AllLong(secrets)
    ensures Settled(text, secrets, SettledOf(text, secrets, window, plan), window)
  {
    var round := RoundIn(text, secrets, window);
    var left := (now: seq<Span>) => Unmasked(now, window);
    forall now | round(now) != [] ensures left(now + round(now)) < left(now) {
      RoundProgress(text, secrets, window, now);
    }
    IteratedEnds(round, left, plan, RoundsFor(window));
    NoRoundLeft(text, secrets, SettledOf(text, secrets, window, plan), window);
  }

  lemma SettledInTime(text: string, secrets: seq<string>, plan: seq<Span>, window: Span)
    requires AllLong(secrets)
    ensures exists n: nat :: n <= window.end - window.start &&
              MasksAsAfter(text, secrets, plan, window, n, SettledOf(text, secrets, window, plan))
  {
    var round := RoundIn(text, secrets, window);
    var left := (now: seq<Span>) => Unmasked(now, window);
    var holds := (n: nat, now: seq<Span>) => MasksAsAfter(text, secrets, plan, window, n, now);
    forall now | round(now) != [] ensures left(now + round(now)) < left(now) {
      RoundProgress(text, secrets, window, now);
    }
    forall n: nat, now | holds(n, now) ensures holds(n + 1, now + round(now)) {
      RoundAdvances(text, secrets, plan, window, n, now);
    }
    assert holds(0, plan);
    IteratedKeeps(round, left, holds, 0, plan, RoundsFor(window));
    var n: nat :| n <= left(plan) && holds(n, SettledOf(text, secrets, window, plan));
    assert MasksAsAfter(text, secrets, plan, window, n, SettledOf(text, secrets, window, plan));
  }

  /**
   Mask exposed parts of copies round by round. The bound on the rounds is never reached, so
   the failure is unreachable; the result adds to the plan exactly what the reference masks
   in as many rounds, and nothing is left for another round.
   */
  method CoverPartialCopies(text: string, plan: seq<Span>, window: Span, secrets: seq<string>)
    returns (result: Masking)
    requires AllLong(secrets)
    ensures result.Masked?
    ensures plan <= result.plan
    ensures forall s :: s in result.plan[|plan|..] ==> Within(s, window)
    ensures Settled(text, secrets, result.plan, window)
    ensures exists n: nat :: n <= window.end - window.start &&
              MasksAsAfter(text, secrets, plan, window, n, result.plan)
    ensures result.plan == SettledOf(text, secrets, window, plan)
  {
    result := Unsettled;
    var now: seq<Span>, n: nat := plan, 0;
    ghost var round, settled: seq<Span> := RoundIn(text, secrets, window), SettledOf(text, secrets, window, plan);
    while n < RoundsFor(window) && result.Unsettled?
      invariant 0 <= n <= window.end - window.start - Unmasked(now, window)
      invariant settled == Iterated(round, now, RoundsFor(window) - n)
      invariant result.Masked? ==> result.plan == settled
      decreases RoundsFor(window) - n, if result.Unsettled? then 1 else 0
    {
      var additions: seq<Span> := Round(text, secrets, window, now);
      assert additions == round(now);
      if additions == [] {
        result := Masked(now);
      } else {
        RoundProgress(text, secrets, window, now);
        now, n := now + additions, n + 1;
      }
    }
    SettledIs(text, secrets, plan, window);
  }

  lemma RoundAgrees(text: string, secrets: seq<string>, covered: seq<Span>, now: seq<Span>, x: int)
    requires forall y :: Covered(covered, y) <==> Covered(now, y)
    ensures ExposedBySome(text, secrets, covered, x) <==> ExposedBySome(text, secrets, now, x)
  {
    forall k | 0 <= k < |secrets|
      ensures Exposed(text, secrets[k], covered, x) <==> Exposed(text, secrets[k], now, x)
    {
      ExposedSame(text, secrets[k], covered, now, x);
    }
  }

  lemma NoRoundLeft(text: string, secrets: seq<string>, now: seq<Span>, window: Span)
    requires AllLong(secrets) && RoundOf(text, secrets, window, now) == []
    ensures Settled(text, secrets, now, window)
  {
    RoundIs(text, secrets, window, now);
    forall k, x | 0 <= k < |secrets| && Has(window, x) && Exposed(text, secrets[k], now, x)
      ensures Covered(now, x)
    {
      assert !Due(text, secrets, window, now, x);
    }
  }

  lemma GapsWithin(gaps: seq<Span>, window: Span)
    requires forall x :: Covered(gaps, x) ==> Has(window, x)
    ensures forall s :: s in gaps ==> Within(s, window)
  {
    forall s | s in gaps ensures Within(s, window) {
      assert Has(s, s.start) && Covered(gaps, s.start);
      assert Has(s, s.end - 1) && Covered(gaps, s.end - 1);
    }
  }

  lemma RoundAdvances(text: string, secrets: seq<string>, plan: seq<Span>, window: Span, n: nat, now: seq<Span>)
    requires AllLong(secrets) && MasksAsAfter(text, secrets, plan, window, n, now)
    ensures MasksAsAfter(text, secrets, plan, window, n + 1, now + RoundOf(text, secrets, window, now))
  {
    var additions: seq<Span> := RoundOf(text, secrets, window, now);
    RoundIs(text, secrets, window, now);
    forall x ensures Covered(now + additions, x) <==> x in MaskedAfter(text, secrets, plan, window, n + 1) {
      CoveredConcat(now, additions, x);
      JoinsIsExposed(text, secrets, now, MaskedAfter(text, secrets, plan, window, n), x);
    }
  }

  // ----- the masked set is the least settled one -----

  ghost predicate ClosedSet(text: string, secrets: seq<string>, window: Span, s: iset<int>) {
    forall x :: Has(window, x) && Joins(text, secrets, s, x) ==> x in s
  }

  /** Nothing is masked without need: every closed set holding the plan holds the result. */
  lemma {:induction false} LeastMasking(text: string, secrets: seq<string>, plan: seq<Span>, window: Span,
                                        n: nat, s: iset<int>)
    requires ClosedSet(text, secrets, window, s)
    requires forall x :: Covered(plan, x) ==> x in s
    ensures MaskedAfter(text, secrets, plan, window, n) <= s
  {
    if n > 0 {
      LeastMasking(text, secrets, plan, window, n - 1, s);
      var before := MaskedAfter(text, secrets, plan, window, n - 1);
      forall x | Joins(text, secrets, before, x) ensures Joins(text, secrets, s, x) {
        var k, i :| && 0 <= k < |secrets| && OccursAt(text, secrets[k], i)
                    && i <= x < i + |secrets[k]| && Reaches(secrets[k], i, before);
        assert Reaches(secrets[k], i, s);
      }
    }
  }

  // ----- the plan -----

  /** What another match asks to have masked: the part of it outside the target. */
  ghost predicate Asked(target: Span, window: Span, s: Span, x: int) {
    Overlaps(s, window) && Has(s, x) && !Has(target, x)
  }

  /** What one other match contributes: itself, or what sticks out of the target on either side. */
  function Pieces(span: Span, target: Span, window: Span): seq<Span> {
    if !Overlaps(span, window) then []
    else if !Overlaps(span, target) then [span]
    else (if span.start < target.start then [RawSpan.Span(span.start, target.start)] else []) +
         (if span.end > target.end then [RawSpan.Span(target.end, span.end)] else [])
  }

  lemma SingleCovers(s: Span, x: int)
    ensures Covered([s], x) <==> Has(s, x)
  {
    if Has(s, x) { assert s in [s]; }
  }

  lemma PiecesCover(span: Span, target: Span, window: Span, x: int)
    ensures Covered(Pieces(span, target, window), x) <==> Asked(target, window, span, x)
  {
    if Overlaps(span, window) && !Overlaps(span, target) {
      SingleCovers(span, x);
      OverlapIsSharedPosition(span, target);
    } else if Overlaps(span, window) {
      var left: seq<Span> := if span.start < target.start then [RawSpan.Span(span.start, target.start)] else [];
      var right: seq<Span> := if span.end > target.end then [RawSpan.Span(target.end, span.end)] else [];
      CoveredConcat(left, right, x);
      if left != [] { SingleCovers(left[0], x); }
      if right != [] { SingleCovers(right[0], x); }
    }
  }

  function NeighboursOf(target: Span, others: seq<Span>, window: Span): seq<Span> {
    if others == [] then []
    else NeighboursOf(target, others[..|others| - 1], window) + Pieces(others[|others| - 1], target, window)
  }

  ghost predicate AskedBySome(target: Span, others: seq<Span>, window: Span, x: int) {
    exists n :: 0 <= n < |others| && Asked(target, window, others[n], x)
  }

  lemma OneMoreAsked(target: Span, others: seq<Span>, window: Span, x: int)
    requires others != []
    ensures var n := |others| - 1;
            AskedBySome(target, others, window, x) <==>
            AskedBySome(target, others[..n], window, x) || Asked(target, window, others[n], x)
  {
    var n := |others| - 1;
    var before: seq<Span> := others[..n];
    if AskedBySome(target, before, window, x) {
      var k :| 0 <= k < |before| && Asked(target, window, before[k], x);
      assert others[k] == before[k];
    }
    if AskedBySome(target, others, window, x) {
      var k :| 0 <= k < |others| && Asked(target, window, others[k], x);
      assert k < n ==> before[k] == others[k];
    }
  }

  lemma {:induction false} NeighboursWithin(target: Span, others: seq<Span>, window: Span, limit: nat)
    requires Within(target, window) && target.end <= limit && forall s :: s in others ==> s.end <= limit
    ensures forall s :: s in NeighboursOf(target, others, window) ==> s.start <= window.end && s.end <= limit
  {
    if others != [] {
      assert others[|others| - 1] in others;
      NeighboursWithin(target, others[..|others| - 1], window, limit);
    }
  }

  lemma {:induction false} NeighboursAre(target: Span, others: seq<Span>, window: Span)
    ensures forall x :: Covered(NeighboursOf(target, others, window), x) <==> AskedBySome(target, others, window, x)
  {
    if others != [] {
      var before: seq<Span>, last: Span := others[..|others| - 1], others[|others| - 1];
      NeighboursAre(target, before, window);
      forall x ensures Covered(NeighboursOf(target, others, window), x) <==> AskedBySome(target, others, window, x) {
        OneMoreAsked(target, others, window, x);
        CoveredConcat(NeighboursOf(target, before, window), Pieces(last, target, window), x);
        PiecesCover(last, target, window, x);
      }
    }
  }

  /** Split the other matches of the window around the target. */
  method Neighbours(target: Span, others: seq<Span>, window: Span) returns (spans: seq<Span>)
    ensures spans == NeighboursOf(target, others, window)
    ensures forall x :: Covered(spans, x) <==> AskedBySome(target, others, window, x)
  {
    spans := [];
    for n := 0 to |others|
      invariant spans == NeighboursOf(target, others[..n], window)
    {
      assert others[..n + 1][..n] == others[..n];
      spans := spans + Pieces(others[n], target, window);
    }
    assert others[..|others|] == others;
    NeighboursAre(target, others, window);
  }

  /** What the plan must hide whatever else it hides. */
  ghost predicate HidesMatches(plan: seq<Span>, target: Span, others: seq<Span>, window: Span) {
    && (forall x :: Has(target, x) ==> Covered(plan, x))
    && (forall n, x :: 0 <= n < |others| && Overlaps(others[n], window) && Has(others[n], x) ==>
          Covered(plan, x))
  }

  /** A set of positions that holds the target and every other match reaching the window. */
  ghost predicate HoldsMatches(s: iset<int>, target: Span, others: seq<Span>, window: Span) {
    && (forall x :: Has(target, x) ==> x in s)
    && (forall n, x :: 0 <= n < |others| && Overlaps(others[n], window) && Has(others[n], x) ==> x in s)
  }

  /** The plan hides only what every closed set with the matches in it hides. */
  ghost predicate HidesNoMore(text: string, secrets: seq<string>, window: Span, target: Span, others: seq<Span>,
                              plan: seq<Span>)
  {
    forall s: iset<int> :: ClosedSet(text, secrets, window, s) && HoldsMatches(s, target, others, window) ==>
      forall x :: Covered(plan, x) ==> x in s
  }

  lemma LeastPlan(text: string, secrets: seq<string>, window: Span, target: Span, others: seq<Span>,
                  neighbours: seq<Span>,
                  masked: seq<Span>, n: nat)
    requires forall x :: Covered(neighbours, x) <==> AskedBySome(target, others, window, x)
    requires MasksAsAfter(text, secrets, [target] + neighbours, window, n, masked)
    ensures HidesNoMore(text, secrets, window, target, others, masked)
  {
    var plan: seq<Span> := [target] + neighbours;
    forall s: iset<int> | ClosedSet(text, secrets, window, s) && HoldsMatches(s, target, others, window)
      ensures forall x :: Covered(masked, x) ==> x in s
    {
      forall x | Covered(plan, x) ensures x in s {
        CoveredConcat([target], neighbours, x);
        SingleCovers(target, x);
      }
      LeastMasking(text, secrets, plan, window, n, s);
    }
  }

  lemma HidesNoMoreSame(text: string, secrets: seq<string>, window: Span, target: Span, others: seq<Span>, a: seq<Span>,
                        b: seq<Span>)
    requires HidesNoMore(text, secrets, window, target, others, a) && forall x :: Covered(a, x) <==> Covered(b, x)
    ensures HidesNoMore(text, secrets, window, target, others, b)
  {
  }

  /** The masked spans of a snippet, in order. */
  function PlanOf(text: string, target: Span, others: seq<Span>, window: Span, secrets: seq<string>): seq<Span> {
    SortByStart(SettledOf(text, secrets, window, [target] + NeighboursOf(target, others, window)))
  }

  /** What the plan of a snippet has to be. */
  ghost predicate GoodPlan(text: string, target: Span, others: seq<Span>, window: Span, secrets: seq<string>,
                           plan: seq<Span>)
  {
    && target in plan && SortedByStart(plan)
    && (forall s :: s in plan ==> s.start <= window.end && s.end <= |text|)
    && HidesMatches(plan, target, others, window) && Settled(text, secrets, plan, window)
    && HidesNoMore(text, secrets, window, target, others, plan)
  }

  lemma FirstPlanHides(target: Span, others: seq<Span>, window: Span, neighbours: seq<Span>)
    requires forall x :: Covered(neighbours, x) <==> AskedBySome(target, others, window, x)
    ensures HidesMatches([target] + neighbours, target, others, window)
  {
    var plan: seq<Span> := [target] + neighbours;
    forall x ensures Covered(plan, x) <==> Has(target, x) || Covered(neighbours, x) {
      CoveredConcat([target], neighbours, x);
      SingleCovers(target, x);
    }
    forall n, x | 0 <= n < |others| && Overlaps(others[n], window) && Has(others[n], x) ensures Covered(plan, x) {
      if !Has(target, x) { assert Asked(target, window, others[n], x); }
    }
  }

  lemma MorePlanHides(plan: seq<Span>, more: seq<Span>, target: Span, others: seq<Span>, window: Span)
    requires HidesMatches(plan, target, others, window) && plan <= more
    ensures HidesMatches(more, target, others, window)
  {
    assert more == plan + more[|plan|..];
    forall x | Covered(plan, x) ensures Covered(more, x) {
      CoveredConcat(plan, more[|plan|..], x);
    }
  }

  /** Before it is put in order, the plan has all the properties but the order. */
  lemma UnsortedPlanIs(text: string, target: Span, others: seq<Span>, window: Span, secrets: seq<string>)
    requires Within(target, window) && window.end <= |text| && AllLong(secrets)
    requires forall s :: s in others ==> s.end <= |text|
    ensures var masked := SettledOf(text, secrets, window, [target] + NeighboursOf(target, others, window));
            && target in masked && (forall s :: s in masked ==> s.start <= window.end && s.end <= |text|)
            && HidesMatches(masked, target, others, window) && Settled(text, secrets, masked, window)
            && HidesNoMore(text, secrets, window, target, others, masked)
  {
    NeighboursWithin(target, others, window, |text|);
    SettledPlan(text, target, others, window, secrets);
    ExtendedStaysWithin([target] + NeighboursOf(target, others, window), target, window, |text|,
                        SettledOf(text, secrets, window, [target] + NeighboursOf(target, others, window)));
  }

  lemma ExtendedStaysWithin(plan: seq<Span>, target: Span, window: Span, limit: nat, masked: seq<Span>)
    requires plan != [] && plan[0] == target && Within(target, window) && window.end <= limit
    requires forall i :: 0 < i < |plan| ==> plan[i].start <= window.end && plan[i].end <= limit
    requires plan <= masked && forall s :: s in masked[|plan|..] ==> Within(s, window)
    ensures target in masked && forall s :: s in masked ==> s.start <= window.end && s.end <= limit
  {
    assert masked == plan + masked[|plan|..];
    assert masked[0] == target;
    forall s | s in masked ensures s.start <= window.end && s.end <= limit {
      if s in plan {
        var i :| 0 <= i < |plan| && plan[i] == s;
      }
    }
  }

  lemma SettledPlan(text: string, target: Span, others: seq<Span>, window: Span, secrets: seq<string>)
    requires AllLong(secrets)
    ensures var plan := [target] + NeighboursOf(target, others, window);
            var masked: seq<Span> := SettledOf(text, secrets, window, plan);
            && plan <= masked && (forall s :: s in masked[|plan|..] ==> Within(s, window))
            && HidesMatches(masked, target, others, window) && Settled(text, secrets, masked, window)
            && HidesNoMore(text, secrets, window, target, others, masked)
  {
    var neighbours: seq<Span> := NeighboursOf(target, others, window);
    var plan: seq<Span> := [target] + neighbours;
    var masked: seq<Span> := SettledOf(text, secrets, window, plan);
    NeighboursAre(target, others, window);
    FirstPlanHides(target, others, window, neighbours);
    SettledIs(text, secrets, plan, window);
    var n: nat :| MasksAsAfter(text, secrets, plan, window, n, masked);
    LeastPlan(text, secrets, window, target, others, neighbours, masked, n);
    MorePlanHides(plan, masked, target, others, window);
  }

  lemma PlanIsGood(text: string, target: Span, others: seq<Span>, window: Span, secrets: seq<string>)
    requires Within(target, window) && window.end <= |text| && AllLong(secrets)
    requires forall s :: s in others ==> s.end <= |text|
    ensures GoodPlan(text, target, others, window, secrets, PlanOf(text, target, others, window, secrets))
  {
    UnsortedPlanIs(text, target, others, window, secrets);
    var masked: seq<Span> := SettledOf(text, secrets, window, [target] + NeighboursOf(target, others, window));
    SortedIsGood(text, target, others, window, secrets, masked);
  }

  lemma SortedIsGood(text: string, target: Span, others: seq<Span>, window: Span, secrets: seq<string>,
                     masked: seq<Span>)
    requires target in masked && (forall s :: s in masked ==> s.start <= window.end && s.end <= |text|)
    requires HidesMatches(masked, target, others, window) && Settled(text, secrets, masked, window)
    requires HidesNoMore(text, secrets, window, target, others, masked)
    ensures GoodPlan(text, target, others, window, secrets, SortByStart(masked))
  {
    var plan: seq<Span> := SortByStart(masked);
    SortByStartSorts(masked);
    forall x ensures Covered(plan, x) <==> Covered(masked, x) {
      CoveredSame(plan, masked, x);
    }
    SettledSame(text, secrets, masked, plan, window);
    HidesNoMoreSame(text, secrets, window, target, others, masked, plan);
    forall s ensures s in plan <==> s in masked {
      assert s in multiset(plan) <==> s in multiset(masked);
    }
  }

  /** No span of the list but the target itself overlaps the target. */
  predicate Apart(spans: seq<Span>, target: Span) {
    forall s :: s in spans ==> s == target || !Overlaps(s, target)
  }

  lemma {:induction false} NeighboursApart(target: Span, others: seq<Span>, window: Span)
    ensures Apart(NeighboursOf(target, others, window), target)
  {
    if others != [] {
      NeighboursApart(target, others[..|others| - 1], window);
    }
  }

  lemma RoundApart(text: string, secrets: seq<string>, window: Span, now: seq<Span>, target: Span)
    requires AllLong(secrets) && target in now
    ensures forall s :: s in RoundOf(text, secrets, window, now) ==> !Overlaps(s, target)
  {
    var additions: seq<Span> := RoundOf(text, secrets, window, now);
    RoundIs(text, secrets, window, now);
    forall s | s in additions ensures !Overlaps(s, target) {
      forall x | Has(s, x) ensures !Has(target, x) {
        assert Covered(additions, x) && Due(text, secrets, window, now, x);
      }
      OverlapIsSharedPosition(s, target);
    }
  }

  lemma {:induction false} IteratedApart(round: seq<Span> -> seq<Span>, now: seq<Span>, rounds: nat, target: Span)
    requires forall now, s :: target in now && s in round(now) ==> !Overlaps(s, target)
    requires target in now && Apart(now, target)
    ensures Apart(Iterated(round, now, rounds), target)
    decreases rounds
  {
    if rounds > 0 && round(now) != [] {
      IteratedApart(round, now + round(now), rounds - 1, target);
    }
  }

  /** The target's mask stands alone: what neighbours and rounds add lies beside it. */
  lemma PlanApart(text: string, target: Span, others: seq<Span>, window: Span, secrets: seq<string>)
    requires AllLong(secrets)
    ensures Apart(PlanOf(text, target, others, window, secrets), target)
  {
    var round, first: seq<Span> := RoundIn(text, secrets, window), [target] + NeighboursOf(target, others, window);
    var masked: seq<Span> := SettledOf(text, secrets, window, first);
    NeighboursApart(target, others, window);
    forall now | target in now ensures forall s :: s in round(now) ==> !Overlaps(s, target) {
      RoundApart(text, secrets, window, now, target);
    }
    IteratedApart(round, first, RoundsFor(window), target);
    SortByStartSorts(masked);
    forall s | s in SortByStart(masked) ensures s in masked {
      assert s in multiset(SortByStart(masked));
    }
  }

  method MaskPlan(text: string, target: Span, others: seq<Span>, window: Span, secrets: seq<string>)
    returns (result: Masking)
    requires Within(target, window) && window.end <= |text| && AllLong(secrets)
    requires forall s :: s in others ==> s.end <= |text|
    ensures result.Masked? && GoodPlan(text, target, others, window, secrets, result.plan)
    ensures result.plan == PlanOf(text, target, others, window, secrets)
  {
    var neighbours: seq<Span> := Neighbours(target, others, window);
    result := CoverPartialCopies(text, [target] + neighbours, window, secrets);
    result := Masked(SortByStart(result.plan));
    PlanIsGood(text, target, others, window, secrets);
  }

  lemma SettledSame(text: string, secrets: seq<string>, a: seq<Span>, b: seq<Span>, window: Span)
    requires Settled(text, secrets, a, window) && forall x :: Covered(a, x) <==> Covered(b, x)
    ensures Settled(text, secrets, b, window)
  {
    forall k, x | 0 <= k < |secrets| && Has(window, x) && Exposed(text, secrets[k], b, x)
      ensures Covered(b, x)
    {
      ExposedSame(text, secrets[k], a, b, x);
    }
  }

  // ----- the layout -----

  /** Whether a snippet shows position `x` in plain. */
  ghost predicate Shown(parts: seq<Part>, x: int) {
    exists p :: p in parts && p.Context? && Has(p.span, x)
  }

  /** A shown stretch fills its gap: it ends at the window's edge or at a mask. */
  ghost predicate Maximal(p: Part, plan: seq<Span>, window: Span) {
    && Within(p.span, window)
    && (p.span.start == window.start || Covered(plan, p.span.start - 1))
    && (p.span.end == window.end || Covered(plan, p.span.end))
  }

  function MaskSpans(parts: seq<Part>): seq<Span> {
    if parts == [] then []
    else
      var last := parts[|parts| - 1];
      MaskSpans(parts[..|parts| - 1]) + if last.Mask? then [last.span] else []
  }

  lemma {:induction false} MaskSpansAreParts(parts: seq<Part>)
    ensures forall s :: s in MaskSpans(parts) <==> Mask(s) in parts
  {
    if parts != [] {
      var before, last := parts[..|parts| - 1], parts[|parts| - 1];
      MaskSpansAreParts(before);
      assert parts == before + [last];
    }
  }

  lemma PartAppended(parts: seq<Part>, p: Part)
    ensures forall x :: Shown(parts + [p], x) <==> Shown(parts, x) || (p.Context? && Has(p.span, x))
    ensures MaskSpans(parts + [p]) == MaskSpans(parts) + if p.Mask? then [p.span] else []
  {
    var all := parts + [p];
    assert all[..|all| - 1] == parts;
    forall x | Shown(parts, x) ensures Shown(all, x) {
      var q :| q in parts && q.Context? && Has(q.span, x);
      assert q in all;
    }
    assert p in all;
  }

  /** Everything uncovered of the window before `upto` is shown, and nothing else. */
  ghost predicate ShownUpTo(parts: seq<Part>, plan: seq<Span>, window: Span, upto: nat) {
    && (forall x :: Shown(parts, x) <==> Has(window, x) && x < upto && !Covered(plan, x))
    && (forall p :: p in parts && p.Context? ==> Maximal(p, plan, window))
  }

  function Opened(parts: seq<Part>, cursor: nat, upto: nat): seq<Part> {
    if upto > cursor then parts + [Context(RawSpan.Span(cursor, upto))] else parts
  }

  /** Showing the stretch from the cursor to the next mask, if there is one. */
  lemma OpenedIs(parts: seq<Part>, plan: seq<Span>, window: Span, cursor: nat, upto: nat, k: nat)
    requires SortedByStart(plan) && k <= |plan| && window.start <= cursor && upto <= window.end
    requires forall j :: 0 <= j < k ==> plan[j].end <= cursor
    requires k < |plan| ==> upto == plan[k].start
    requires k == |plan| ==> upto == window.end
    requires cursor == window.start || Covered(plan, cursor - 1)
    requires ShownUpTo(parts, plan, window, cursor)
    ensures ShownUpTo(Opened(parts, cursor, upto), plan, window, if upto > cursor then upto else cursor)
    ensures MaskSpans(Opened(parts, cursor, upto)) == MaskSpans(parts)
  {
    if upto > cursor {
      var stretch := Context(RawSpan.Span(cursor, upto));
      forall x | Has(stretch.span, x) ensures !Covered(plan, x) {
        OpenBefore(plan, k, cursor, x);
      }
      if k < |plan| {
        assert plan[k] in plan && Has(plan[k], upto);
      }
      assert Maximal(stretch, plan, window);
      PartAppended(parts, stretch);
    }
  }

  lemma MaskAppended(parts: seq<Part>, plan: seq<Span>, window: Span, s: Span, upto: nat)
    requires s in plan && ShownUpTo(parts, plan, window, upto) && s.start <= upto
    ensures ShownUpTo(parts + [Mask(s)], plan, window, if s.end > upto then s.end else upto)
    ensures MaskSpans(parts + [Mask(s)]) == MaskSpans(parts) + [s]
  {
    PartAppended(parts, Mask(s));
    forall x | Has(s, x) ensures Covered(plan, x) {}
  }

  /** The walk has dealt with the first `k` masks and stands at `cursor`. */
  ghost predicate WalkedTo(parts: seq<Part>, plan: seq<Span>, window: Span, cursor: nat, k: nat)
    requires k <= |plan|
  {
    && window.start <= cursor && (cursor == window.start || Covered(plan, cursor - 1))
    && (forall j :: 0 <= j < k ==> plan[j].end <= cursor)
    && MaskSpans(parts) == plan[..k]
    && ShownUpTo(parts, plan, window, cursor)
  }

  lemma CoversItsEnd(plan: seq<Span>, k: nat)
    requires k < |plan|
    ensures Covered(plan, plan[k].end - 1)
  {
    assert plan[k] in plan && Has(plan[k], plan[k].end - 1);
  }

  lemma WalkedOn(more: seq<Part>, plan: seq<Span>, window: Span, cursor: nat, k: nat, next: nat)
    requires 0 < k <= |plan| && window.start <= cursor && (cursor == window.start || Covered(plan, cursor - 1))
    requires forall j :: 0 <= j < k - 1 ==> plan[j].end <= cursor
    requires MaskSpans(more) == plan[..k - 1] + [plan[k - 1]] && ShownUpTo(more, plan, window, next)
    requires next == if plan[k - 1].end > cursor then plan[k - 1].end else cursor
    ensures WalkedTo(more, plan, window, next, k)
  {
    assert plan[..k] == plan[..k - 1] + [plan[k - 1]];
    CoversItsEnd(plan, k - 1);
  }

  /** The parts up to and including the `k`-th mask, and where the walk then stands. */
  function WalkOf(plan: seq<Span>, window: Span, k: nat): (seq<Part>, nat)
    requires k <= |plan|
  {
    if k == 0 then ([], window.start)
    else
      var (parts, cursor) := WalkOf(plan, window, k - 1);
      var mask: Span := plan[k - 1];
      (Opened(parts, cursor, mask.start) + [Mask(mask)], if mask.end > cursor then mask.end else cursor)
  }

  function LayoutOf(plan: seq<Span>, window: Span): seq<Part> {
    var (parts, cursor) := WalkOf(plan, window, |plan|);
    Opened(parts, cursor, window.end)
  }

  lemma WalkStep(parts: seq<Part>, plan: seq<Span>, window: Span, cursor: nat, k: nat)
    requires 0 < k <= |plan| && SortedByStart(plan) && plan[k - 1].start <= window.end
    requires WalkedTo(parts, plan, window, cursor, k - 1)
    ensures WalkedTo(Opened(parts, cursor, plan[k - 1].start) + [Mask(plan[k - 1])], plan, window,
                     if plan[k - 1].end > cursor then plan[k - 1].end else cursor, k)
  {
    var mask: Span := plan[k - 1];
    OpenedIs(parts, plan, window, cursor, mask.start, k - 1);
    var more := Opened(parts, cursor, mask.start);
    MaskAppended(more, plan, window, mask, if mask.start > cursor then mask.start else cursor);
    WalkedOn(more + [Mask(mask)], plan, window, cursor, k, if mask.end > cursor then mask.end else cursor);
  }

  lemma WalkStart(plan: seq<Span>, window: Span, parts: seq<Part>)
    requires parts == []
    ensures WalkedTo(parts, plan, window, window.start, 0)
  {
  }

  lemma {:induction false} WalkIs(plan: seq<Span>, window: Span, k: nat, parts: seq<Part>, cursor: nat)
    requires k <= |plan| && SortedByStart(plan) && forall s :: s in plan ==> s.start <= window.end
    requires WalkOf(plan, window, k) == (parts, cursor)
    ensures WalkedTo(parts, plan, window, cursor, k)
  {
    if k == 0 {
      WalkStart(plan, window, parts);
    } else {
      var (before, at) := WalkOf(plan, window, k - 1);
      assert plan[k - 1] in plan;
      WalkIs(plan, window, k - 1, before, at);
      WalkStep(before, plan, window, at, k);
    }
  }

  /** What a layout of a plan shows: exactly what the window holds and the plan leaves open. */
  lemma LayoutIs(plan: seq<Span>, window: Span)
    requires SortedByStart(plan) && forall s :: s in plan ==> s.start <= window.end
    ensures var parts := LayoutOf(plan, window);
            && (forall x :: Shown(parts, x) <==> Has(window, x) && !Covered(plan, x))
            && MaskSpans(parts) == plan
            && forall p :: p in parts && p.Context? ==> Maximal(p, plan, window)
  {
    var (parts, cursor) := WalkOf(plan, window, |plan|);
    WalkIs(plan, window, |plan|, parts, cursor);
    OpenedIs(parts, plan, window, cursor, window.end, |plan|);
  }

  /** Each shown stretch but the last is followed by the mask it ends at. */
  predicate Adjoining(parts: seq<Part>) {
    forall i :: 0 <= i < |parts| - 1 && parts[i].Context? ==>
      parts[i + 1].Mask? && parts[i].span.end == parts[i + 1].span.start
  }

  lemma {:induction false} WalkAdjoins(plan: seq<Span>, window: Span, k: nat)
    requires k <= |plan|
    ensures var parts := WalkOf(plan, window, k).0;
            Adjoining(parts) && (parts != [] ==> parts[|parts| - 1].Mask?)
  {
    if k > 0 {
      WalkAdjoins(plan, window, k - 1);
    }
  }

  lemma LayoutAdjoins(plan: seq<Span>, window: Span)
    ensures Adjoining(LayoutOf(plan, window))
  {
    WalkAdjoins(plan, window, |plan|);
  }

  /** A stretch right after the target's mask starts where the target ends. */
  predicate Leaving(parts: seq<Part>, target: Span) {
    forall i :: 0 <= i < |parts| - 1 && parts[i] == Mask(target) && parts[i + 1].Context? ==>
      parts[i + 1].span.start == target.end
  }

  lemma OpenedLeaves(parts: seq<Part>, cursor: nat, upto: nat, target: Span)
    requires Leaving(parts, target) && (parts != [] && parts[|parts| - 1] == Mask(target) ==> cursor == target.end)
    ensures Leaving(Opened(parts, cursor, upto), target)
  {
  }

  /** Where the walk stands: at the window's start or at the end of a mask. */
  predicate StandsAtEnd(plan: seq<Span>, window: Span, k: nat, cursor: nat)
    requires k <= |plan|
  {
    cursor == window.start || exists j :: 0 <= j < k && plan[j].end == cursor
  }

  lemma {:induction false} WalkStands(plan: seq<Span>, window: Span, k: nat)
    requires k <= |plan|
    ensures StandsAtEnd(plan, window, k, WalkOf(plan, window, k).1)
  {
    if k > 0 {
      WalkStands(plan, window, k - 1);
    }
  }

  lemma NotPastTarget(plan: seq<Span>, window: Span, k: nat, cursor: nat, target: Span)
    requires k < |plan| && plan[k] == target && SortedByStart(plan) && Apart(plan, target)
    requires window.start <= target.start && StandsAtEnd(plan, window, k, cursor)
    ensures cursor <= target.end
  {
    if cursor != window.start {
      var j :| 0 <= j < k && plan[j].end == cursor;
      assert plan[j] in plan && plan[j].start <= plan[k].start;
    }
  }

  lemma {:induction false} WalkLeaves(plan: seq<Span>, window: Span, k: nat, target: Span)
    requires k <= |plan| && SortedByStart(plan) && Apart(plan, target) && window.start <= target.start
    ensures var parts := WalkOf(plan, window, k).0;
            && Leaving(parts, target)
            && (parts != [] && parts[|parts| - 1] == Mask(target) ==> WalkOf(plan, window, k).1 == target.end)
  {
    if k > 0 {
      var (parts, cursor) := WalkOf(plan, window, k - 1);
      WalkLeaves(plan, window, k - 1, target);
      WalkStands(plan, window, k - 1);
      OpenedLeaves(parts, cursor, plan[k - 1].start, target);
      if plan[k - 1] == target {
        NotPastTarget(plan, window, k - 1, cursor, target);
      }
    }
  }

  lemma LayoutLeaves(plan: seq<Span>, window: Span, target: Span)
    requires SortedByStart(plan) && Apart(plan, target) && window.start <= target.start
    ensures Leaving(LayoutOf(plan, window), target)
  {
    var (parts, cursor) := WalkOf(plan, window, |plan|);
    WalkLeaves(plan, window, |plan|, target);
    OpenedLeaves(parts, cursor, window.end, target);
  }

  method OpenStretch(parts: seq<Part>, cursor: nat, upto: nat) returns (more: seq<Part>)
    ensures more == Opened(parts, cursor, upto)
  {
    more := parts;
    if upto > cursor {
      more := parts + [Context(RawSpan.Span(cursor, upto))];
    }
  }

  /** Walk the window: the stretches between masks in plain, the masks in order. */
  method Layout(plan: seq<Span>, window: Span) returns (parts: seq<Part>)
    requires SortedByStart(plan) && forall s :: s in plan ==> s.start <= window.end
    ensures forall x :: Shown(parts, x) <==> Has(window, x) && !Covered(plan, x)
    ensures MaskSpans(parts) == plan && Adjoining(parts)
    ensures forall p :: p in parts && p.Context? ==> Maximal(p, plan, window)
    ensures parts == LayoutOf(plan, window)
  {
    parts := [];
    var cursor: nat := window.start;
    for k := 0 to |plan|
      invariant (parts, cursor) == WalkOf(plan, window, k)
    {
      var mask: Span := plan[k];
      parts := OpenStretch(parts, cursor, mask.start);
      parts := parts + [Mask(mask)];
      cursor := Max(cursor, mask.end);
    }
    parts := OpenStretch(parts, cursor, window.end);
    LayoutIs(plan, window);
    LayoutAdjoins(plan, window);
  }

  lemma OpenBefore(plan: seq<Span>, k: nat, cursor: nat, x: int)
    requires SortedByStart(plan) && k <= |plan|
    requires forall j :: 0 <= j < k ==> plan[j].end <= cursor
    requires cursor <= x && (k < |plan| ==> x < plan[k].start)
    ensures !Covered(plan, x)
  {
    forall s | s in plan ensures !Has(s, x) {
      var j :| 0 <= j < |plan| && plan[j] == s;
      if j > k { assert plan[k].start <= plan[j].start; }
    }
  }

  // ----- no shown edge cuts a copy -----

  ghost predicate EdgesClean(text: string, secrets: seq<string>, p: Part) {
    NoCut(text, secrets, p.span.start) && NoCut(text, secrets, p.span.end)
  }

  /** A copy cut at a mask's edge exposes the unmasked position next to it. */
  lemma CutExposes(text: string, secret: string, plan: seq<Span>, edge: int, inside: int, i: int)
    requires (inside == edge && Covered(plan, edge - 1)) || (inside == edge - 1 && Covered(plan, edge))
    ensures Cuts(text, secret, edge, i) ==> Exposed(text, secret, plan, inside)
  {
    if Cuts(text, secret, edge, i) {
      assert Touched(secret, i, plan);
    }
  }

  lemma MaskEdgeClean(text: string, secrets: seq<string>, plan: seq<Span>, window: Span, edge: int, inside: int)
    requires Settled(text, secrets, plan, window)
    requires Has(window, inside) && !Covered(plan, inside)
    requires (inside == edge && Covered(plan, edge - 1)) || (inside == edge - 1 && Covered(plan, edge))
    ensures NoCut(text, secrets, edge)
  {
    forall k, i | 0 <= k < |secrets| ensures !Cuts(text, secrets[k], edge, i) {
      CutExposes(text, secrets[k], plan, edge, inside, i);
    }
  }

  lemma ShownEdgesClean(text: string, secrets: seq<string>, plan: seq<Span>, window: Span, target: Span, p: Part)
    requires Settled(text, secrets, plan, window) && Within(target, window)
    requires forall x :: Has(target, x) ==> Covered(plan, x)
    requires window.end == target.end || NoCut(text, secrets, window.end)
    requires window.start == target.start || NoCut(text, secrets, window.start)
    requires Maximal(p, plan, window) && forall x :: Has(p.span, x) ==> !Covered(plan, x)
    ensures EdgesClean(text, secrets, p)
  {
    var first, last := p.span.start, p.span.end - 1;
    assert !Covered(plan, first) && !Covered(plan, last);
    assert Has(target, target.start) && Has(target, target.end - 1);
    assert first != target.start && last != target.end - 1;
    if p.span.start != window.start {
      MaskEdgeClean(text, secrets, plan, window, p.span.start, first);
    }
    if p.span.end != window.end {
      MaskEdgeClean(text, secrets, plan, window, p.span.end, last);
    }
  }

  /** The final check of every edge of every shown stretch. */
  method NoBisectedSecret(text: string, parts: seq<Part>, secrets: seq<string>) returns (clean: bool)
    requires AllLong(secrets)
    ensures clean <==> forall p :: p in parts && p.Context? ==> EdgesClean(text, secrets, p)
  {
    for n := 0 to |parts|
      invariant forall m :: 0 <= m < n && parts[m].Context? ==> EdgesClean(text, secrets, parts[m])
    {
      if parts[n].Context? {
        for k := 0 to |secrets|
          invariant forall j, i :: 0 <= j < k ==>
                      !Cuts(text, secrets[j], parts[n].span.start, i) && !Cuts(text, secrets[j], parts[n].span.end, i)
        {
          var left := Straddler(text, parts[n].span.start, secrets[k]);
          var right := Straddler(text, parts[n].span.end, secrets[k]);
          if left.Some? || right.Some? {
            assert parts[n] in parts && !EdgesClean(text, secrets, parts[n]);
            return false;
          }
        }
      }
    }
    return true;
  }

  /** A copy that reaches a shown stretch lies wholly inside it. */
  lemma WholeCopiesOnly(text: string, secrets: seq<string>, p: Part, k: nat, i: int)
    requires EdgesClean(text, secrets, p) && k < |secrets| && OccursAt(text, secrets[k], i)
    requires i < p.span.end && p.span.start < i + |secrets[k]|
    ensures p.span.start <= i && i + |secrets[k]| <= p.span.end
  {
    assert !Cuts(text, secrets[k], p.span.start, i) && !Cuts(text, secrets[k], p.span.end, i);
  }

  // ----- the snippet -----

  /** Nothing shown belongs to the target or to any of the other matches given. */
  ghost predicate ShowsNoMatch(parts: seq<Part>, target: Span, others: seq<Span>) {
    forall x :: Shown(parts, x) ==> !Has(target, x) && !Covered(others, x)
  }

  /** Whatever masking could leave open, given the matches and whole copies, is shown. */
  ghost predicate ShowsAllElse(text: string, secrets: seq<string>, window: Span, target: Span, others: seq<Span>,
                               parts: seq<Part>)
  {
    forall s: iset<int> :: ClosedSet(text, secrets, window, s) && HoldsMatches(s, target, others, window) ==>
      forall x :: Has(window, x) && x !in s ==> Shown(parts, x)
  }

  lemma ShownRest(text: string, secrets: seq<string>, window: Span, target: Span, others: seq<Span>, plan: seq<Span>,
                  parts: seq<Part>)
    requires HidesNoMore(text, secrets, window, target, others, plan)
    requires forall x :: Shown(parts, x) <==> Has(window, x) && !Covered(plan, x)
    ensures ShowsAllElse(text, secrets, window, target, others, parts)
  {
  }

  /**
   What a layout of a snippet is: the widest clean window, everything shown that need not be
   hidden and nothing that belongs to a match, and only whole copies of matched texts; the masks
   of the plan in order, each shown stretch ending at the mask that follows it, and one that follows
   the target's mask starting there.
   */
  ghost predicate IsLayout(text: string, target: Span, contextChars: nat, others: seq<Span>, secrets: seq<string>,
                           window: Span, parts: seq<Part>)
    requires target.end <= |text|
  {
    && AreMatchedTexts(text, target, others, secrets)
    && Clipped(text, secrets, ContextWindow(|text|, target, contextChars), target, window)
    && (forall x :: Shown(parts, x) ==> Has(window, x))
    && ShowsNoMatch(parts, target, others)
    && ShowsAllElse(text, secrets, window, target, others, parts)
    && (forall p :: p in parts && p.Context? ==> EdgesClean(text, secrets, p))
    && Adjoining(parts) && Leaving(parts, target) && Mask(target) in parts
    && MaskSpans(parts) == PlanOf(text, target, others, window, secrets)
    && forall p :: p in parts ==> p.span.end <= |text|
  }

  /** A plan that is good makes a layout that is. */
  lemma GoodPlanIsLayout(text: string, target: Span, contextChars: nat, others: seq<Span>, secrets: seq<string>,
                         window: Span, plan: seq<Span>)
    requires target.end <= |text| && AreMatchedTexts(text, target, others, secrets)
    requires Clipped(text, secrets, ContextWindow(|text|, target, contextChars), target, window)
    requires plan == PlanOf(text, target, others, window, secrets)
    requires GoodPlan(text, target, others, window, secrets, plan) && Apart(plan, target)
    ensures IsLayout(text, target, contextChars, others, secrets, window, LayoutOf(plan, window))
  {
    var parts := LayoutOf(plan, window);
    LayoutIs(plan, window);
    LayoutAdjoins(plan, window);
    LayoutLeaves(plan, window, target);
    forall p | p in parts && p.Context? ensures EdgesClean(text, secrets, p) {
      forall x | Has(p.span, x) ensures !Covered(plan, x) { assert Shown(parts, x); }
      ShownEdgesClean(text, secrets, plan, window, target, p);
    }
    HiddenMatches(plan, parts, target, others, window);
    ShownRest(text, secrets, window, target, others, plan, parts);
    MaskSpansAreParts(parts);
    forall p | p in parts ensures p.span.end <= |text| {
      if p.Mask? { assert p.span in plan; }
    }
  }

  /** The secrets, window and parts of a snippet, as functions of the inputs. */
  function WindowOf(text: string, target: Span, contextChars: nat, others: seq<Span>): RawSpan
    requires target.end <= |text|
  {
    ClippedWindow(text, ContextWindow(|text|, target, contextChars), target, SecretsOf(text, [target] + others))
  }

  function PartsOf(text: string, target: Span, contextChars: nat, others: seq<Span>): seq<Part>
    requires target.end <= |text|
  {
    var window := WindowOf(text, target, contextChars, others);
    if window.start < window.end then
      LayoutOf(PlanOf(text, target, others, window, SecretsOf(text, [target] + others)), window)
    else []
  }

  lemma LayoutIsSafe(text: string, target: Span, contextChars: nat, others: seq<Span>)
    requires target.end <= |text| && forall s :: s in others ==> s.end <= |text|
    ensures var window := WindowOf(text, target, contextChars, others);
            && window.start < window.end
            && IsLayout(text, target, contextChars, others, SecretsOf(text, [target] + others), window,
                        PartsOf(text, target, contextChars, others))
  {
    var secrets := SecretsOf(text, [target] + others);
    SecretsOfMatches(text, target, others);
    ClippedWindowIs(text, ContextWindow(|text|, target, contextChars), target, secrets);
    var window: Span := WindowOf(text, target, contextChars, others);
    PlanIsGood(text, target, others, window, secrets);
    PlanApart(text, target, others, window, secrets);
    GoodPlanIsLayout(text, target, contextChars, others, secrets, window,
                     PlanOf(text, target, others, window, secrets));
  }

  /**
   Lay out a snippet. For every text and every set of matches inside it, neither the masking
   nor the check of the edges fails; nothing shown belongs to any match; and every copy of a
   matched secret that reaches a shown stretch lies wholly inside that stretch.
   */
  method LayOutSnippet(text: string, target: Span, contextChars: nat, others: seq<Span>)
    returns (window: Span, parts: seq<Part>, secrets: seq<string>, failed: bool)
    requires target.end <= |text| && forall s :: s in others ==> s.end <= |text|
    ensures !failed && IsLayout(text, target, contextChars, others, secrets, window, parts)
    ensures secrets == SecretsOf(text, [target] + others)
    ensures window == WindowOf(text, target, contextChars, others)
    ensures parts == PartsOf(text, target, contextChars, others)
  {
    secrets := MatchedTexts(text, target, others);
    window := ClipToSecretBoundaries(text, ContextWindow(|text|, target, contextChars), target, secrets);
    var masking := MaskPlan(text, target, others, window, secrets);
    parts := Layout(masking.plan, window);
    LayoutIsSafe(text, target, contextChars, others);
    var clean := NoBisectedSecret(text, parts, secrets);
    failed := masking.Unsettled? || !clean;
  }

  lemma HiddenMatches(plan: seq<Span>, parts: seq<Part>, target: Span, others: seq<Span>, window: Span)
    requires HidesMatches(plan, target, others, window)
    requires forall x :: Shown(parts, x) <==> Has(window, x) && !Covered(plan, x)
    ensures ShowsNoMatch(parts, target, others)
  {
    forall x | Shown(parts, x) ensures !Covered(others, x) {
      if Covered(others, x) {
        var s :| s in others && Has(s, x);
        var n :| 0 <= n < |others| && others[n] == s;
        assert Overlaps(others[n], window);
      }
    }
  }
}
