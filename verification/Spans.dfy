/** Half-open ranges of a text, what a list of them covers, and literal occurrences. */
module Spans {
  import opened Basics
  import opened Sorting

  datatype RawSpan = Span(start: nat, end: nat)

  /** A match range; an empty or reversed one cannot be built. */
  type Span = s: RawSpan | s.start < s.end witness RawSpan.Span(0, 1)

  predicate Has(s: Span, x: int) {
    s.start <= x < s.end
  }

  predicate Overlaps(a: Span, b: Span) {
    a.start < b.end && b.start < a.end
  }

  predicate Within(a: Span, b: Span) {
    b.start <= a.start && a.end <= b.end
  }

  lemma OverlapIsSharedPosition(a: Span, b: Span)
    ensures Overlaps(a, b) <==> exists x :: Has(a, x) && Has(b, x)
  {
    if Overlaps(a, b) {
      var x := if a.start < b.start then b.start else a.start;
      assert Has(a, x) && Has(b, x);
    }
  }

  /** Whether some span of the list hides position `x`. */
  ghost predicate Covered(spans: seq<Span>, x: int) {
    exists s :: s in spans && Has(s, x)
  }

  lemma CoveredConcat(a: seq<Span>, b: seq<Span>, x: int)
    ensures Covered(a + b, x) <==> Covered(a, x) || Covered(b, x)
  {
    if Covered(a, x) {
      var s :| s in a && Has(s, x);
      assert s in a + b;
    }
    if Covered(b, x) {
      var s :| s in b && Has(s, x);
      assert s in a + b;
    }
  }

  lemma CoveredSame(a: seq<Span>, b: seq<Span>, x: int)
    requires multiset(a) == multiset(b)
    ensures Covered(a, x) <==> Covered(b, x)
  {
    if Covered(a, x) {
      var s :| s in a && Has(s, x);
      assert s in multiset(b);
    }
    if Covered(b, x) {
      var s :| s in b && Has(s, x);
      assert s in multiset(a);
    }
  }

  // ----- sorting by start, stable -----

  predicate SortedByStart(spans: seq<Span>) {
    forall i, j :: 0 <= i < j < |spans| ==> spans[i].start <= spans[j].start
  }

  predicate StartsBefore(a: Span, b: Span) {
    a.start < b.start
  }

  function SortByStart(spans: seq<Span>): seq<Span> {
    SortBy(spans, StartsBefore)
  }

  lemma SortByStartSorts(spans: seq<Span>)
    ensures SortedByStart(SortByStart(spans))
    ensures multiset(SortByStart(spans)) == multiset(spans)
  {
    SortByOrders(spans, StartsBefore);
  }

  // ----- literal occurrences -----

  predicate OccursAt(text: string, secret: string, i: int) {
    0 <= i && i + |secret| <= |text| && text[i..i + |secret|] == secret
  }

  /** The leftmost occurrence that lies within `[lo, hi)`, if there is one. */
  function Find(text: string, secret: string, lo: nat, hi: int): (found: Option<nat>)
    ensures found.Some? ==> lo <= found.value && found.value + |secret| <= hi
    decreases hi - lo
  {
    if lo + |secret| > hi || lo + |secret| > |text| then None
    else if text[lo..lo + |secret|] == secret then Some(lo)
    else Find(text, secret, lo + 1, hi)
  }

  lemma {:induction false} FindIs(text: string, secret: string, lo: nat, hi: int)
    ensures var found := Find(text, secret, lo, hi);
            if found.Some? then
              && OccursAt(text, secret, found.value)
              && forall j :: lo <= j < found.value ==> !OccursAt(text, secret, j)
            else forall j :: lo <= j && j + |secret| <= hi ==> !OccursAt(text, secret, j)
    decreases hi - lo
  {
    if lo + |secret| <= hi && lo + |secret| <= |text| && text[lo..lo + |secret|] != secret {
      FindIs(text, secret, lo + 1, hi);
    }
  }

  function Max(a: int, b: int): int { if a >= b then a else b }
  function Min(a: int, b: int): int { if a <= b then a else b }

  /** A copy of `secret` cut strictly inside by `boundary`. */
  ghost predicate Cuts(text: string, secret: string, boundary: int, i: int) {
    OccursAt(text, secret, i) && i < boundary < i + |secret|
  }

  /** The leftmost occurrence cut by the boundary, or none exactly when there is none. */
  function Straddler(text: string, boundary: nat, secret: string): (hit: Option<Span>)
    requires |secret| > 1
    ensures hit.Some? ==> hit.value.end == hit.value.start + |secret|
    ensures hit.Some? ==> Cuts(text, secret, boundary, hit.value.start)
    ensures hit.None? ==> forall i :: !Cuts(text, secret, boundary, i)
  {
    FindIs(text, secret, Max(0, boundary - |secret| + 1), boundary + |secret| - 1);
    var index := Find(text, secret, Max(0, boundary - |secret| + 1), boundary + |secret| - 1);
    if index.Some? then Some(RawSpan.Span(index.value, index.value + |secret|)) else None
  }

  /** A span that is a copy of `secret`. */
  predicate IsCopy(text: string, secret: string, s: Span) {
    s.end == s.start + |secret| && OccursAt(text, secret, s.start)
  }

  /** Each span starts after the one before it. */
  predicate Ascending(spans: seq<Span>) {
    forall i, j :: 0 <= i < j < |spans| ==> spans[i].start < spans[j].start
  }

  /** The copies from `from` on that end by `stop`, each search starting one past the last hit. */
  function OccurrencesFrom(text: string, secret: string, from: nat, stop: int): seq<Span>
    requires |secret| > 0
    decreases stop - from
  {
    var index := Find(text, secret, from, stop);
    if index.None? then []
    else [RawSpan.Span(index.value, index.value + |secret|)] + OccurrencesFrom(text, secret, index.value + 1, stop)
  }

  /** The first copy found, and none before it. */
  lemma FirstCopy(text: string, secret: string, from: nat, stop: int, at: nat)
    requires |secret| > 0 && Find(text, secret, from, stop) == Some(at)
    ensures IsCopy(text, secret, RawSpan.Span(at, at + |secret|))
    ensures forall s: Span :: IsCopy(text, secret, s) && from <= s.start <= at ==>
              s == RawSpan.Span(at, at + |secret|)
  {
    FindIs(text, secret, from, stop);
    forall s: Span | IsCopy(text, secret, s) && from <= s.start <= at ensures s.start == at {
      assert OccursAt(text, secret, s.start);
    }
  }

  lemma {:induction false} OccurrencesFromAre(text: string, secret: string, from: nat, stop: int)
    requires |secret| > 0
    ensures forall s: Span :: s in OccurrencesFrom(text, secret, from, stop) <==>
                              IsCopy(text, secret, s) && from <= s.start && s.end <= stop
    ensures Ascending(OccurrencesFrom(text, secret, from, stop))
    decreases stop - from
  {
    var index := Find(text, secret, from, stop);
    FindIs(text, secret, from, stop);
    if index.Some? {
      var rest: seq<Span> := OccurrencesFrom(text, secret, index.value + 1, stop);
      OccurrencesFromAre(text, secret, index.value + 1, stop);
      FirstCopy(text, secret, from, stop, index.value);
      forall s: Span
        ensures s in OccurrencesFrom(text, secret, from, stop) <==>
                s in rest || s == RawSpan.Span(index.value, index.value + |secret|)
      {
      }
      forall j | 0 <= j < |rest| ensures index.value < rest[j].start {
        assert rest[j] in rest;
      }
    } else {
      forall s: Span | from <= s.start && s.end <= stop ensures !IsCopy(text, secret, s) {
        assert s.end == s.start + |secret| ==> !OccursAt(text, secret, s.start);
      }
    }
  }

  function OccurrencesIn(text: string, secret: string, region: Span): seq<Span>
    requires |secret| > 0
  {
    OccurrencesFrom(text, secret, Max(0, region.start - |secret| + 1), Min(|text|, region.end + |secret| - 1))
  }

  lemma CopyReaches(text: string, secret: string, region: Span, s: Span)
    requires |secret| > 0 && IsCopy(text, secret, s)
    ensures Overlaps(s, region) <==>
            && Max(0, region.start - |secret| + 1) <= s.start
            && s.end <= Min(|text|, region.end + |secret| - 1)
  {
  }

  /** Exactly the copies that reach into the region, in order. */
  lemma OccurrencesAre(text: string, secret: string, region: Span)
    requires |secret| > 0
    ensures forall s: Span :: s in OccurrencesIn(text, secret, region) <==>
                              IsCopy(text, secret, s) && Overlaps(s, region)
    ensures Ascending(OccurrencesIn(text, secret, region))
  {
    var from, stop := Max(0, region.start - |secret| + 1), Min(|text|, region.end + |secret| - 1);
    OccurrencesFromAre(text, secret, from, stop);
    forall s: Span | IsCopy(text, secret, s)
      ensures s in OccurrencesIn(text, secret, region) <==> Overlaps(s, region)
    {
      CopyReaches(text, secret, region, s);
    }
  }

  /** Search on from one past each hit. */
  method CollectOccurrences(text: string, secret: string, start: nat, stop: int) returns (found: seq<Span>)
    requires |secret| > 0
    ensures found == OccurrencesFrom(text, secret, start, stop)
  {
    found := [];
    var from: nat := start;
    var index := Find(text, secret, start, stop);
    ghost var all, rest := OccurrencesFrom(text, secret, start, stop), OccurrencesFrom(text, secret, start, stop);
    while index.Some?
      invariant index == Find(text, secret, from, stop)
      invariant rest == OccurrencesFrom(text, secret, from, stop)
      invariant all == found + rest
      decreases |rest|
    {
      OccurrencesStep(text, secret, from, stop);
      var hit: Span := RawSpan.Span(index.value, index.value + |secret|);
      MovedOver(found, rest);
      rest := rest[1..];
      found, from := found + [hit], index.value + 1;
      index := Find(text, secret, from, stop);
    }
    NoMoreOccurrences(text, secret, from, stop);
  }

  lemma MovedOver(found: seq<Span>, rest: seq<Span>)
    requires rest != []
    ensures found + [rest[0]] + rest[1..] == found + rest
  {
  }

  lemma OccurrencesStep(text: string, secret: string, from: nat, stop: int)
    requires |secret| > 0 && Find(text, secret, from, stop).Some?
    ensures var rest, at := OccurrencesFrom(text, secret, from, stop), Find(text, secret, from, stop).value;
            && rest != [] && rest[0] == RawSpan.Span(at, at + |secret|)
            && rest[1..] == OccurrencesFrom(text, secret, at + 1, stop)
  {
  }

  lemma NoMoreOccurrences(text: string, secret: string, from: nat, stop: int)
    requires |secret| > 0 && Find(text, secret, from, stop).None?
    ensures OccurrencesFrom(text, secret, from, stop) == []
  {
  }

  /** Every copy that reaches into a region, in order, overlapping ones included. */
  method Occurrences(text: string, secret: string, region: Span) returns (found: seq<Span>)
    requires |secret| > 0
    ensures forall s: Span :: s in found <==> IsCopy(text, secret, s) && Overlaps(s, region)
    ensures Ascending(found)
    ensures found == OccurrencesIn(text, secret, region)
  {
    found := CollectOccurrences(text, secret, Max(0, region.start - |secret| + 1),
                                Min(|text|, region.end + |secret| - 1));
    OccurrencesAre(text, secret, region);
  }
}
