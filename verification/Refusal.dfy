/**
 When a snippet is refused. A text without brackets or ellipses is in a snippet exactly when one part
 of it holds it: a mask, or a stretch as it is after scrub and collapse, with what the target's mask
 reveals beside it. For matched texts of one word, or with white space that no snippet can show, that
 comes down to the mask of the target itself.
 */
module Refusal {
  import opened Basics
  import opened Spans
  import opened Redaction
  import opened Rendering
  import opened Scrub

  // ----- what one part of a snippet holds -----

  function PolicyFor(s: Span, target: Span, p: Policy): Policy {
    if s == target then p else DefaultPolicy()
  }

  /** What a mask reveals first. */
  function Ahead(text: string, part: Part, target: Span, p: Policy): string {
    if part.Mask? && part.span.end <= |text| then Head(TextOf(text, part.span), PolicyFor(part.span, target, p))
    else text[..0]
  }

  /** What a mask reveals last. */
  function Behind(text: string, part: Part, target: Span, p: Policy): string {
    if part.Mask? && part.span.end <= |text| then Tail(TextOf(text, part.span), PolicyFor(part.span, target, p))
    else text[..0]
  }

  /** Only the target's mask reveals anything, and only on one side. */
  lemma RevealedOnce(text: string, a: Part, b: Part, target: Span, p: Policy)
    ensures |Ahead(text, a, target, p)| == 0 || |Behind(text, b, target, p)| == 0
  {
    if a.span.end <= |text| && b.span.end <= |text| {
      DefaultReveals(TextOf(text, a.span));
      DefaultReveals(TextOf(text, b.span));
      MaskIs(TextOf(text, a.span), PolicyFor(a.span, target, p));
    }
  }

  /** A part as it stands in the snippet, a stretch with what is revealed on either side; `z` follows the last one. */
  function PlaceBefore(text: string, parts: seq<Part>, i: nat, target: Span, p: Policy, rs: Replacements, z: string)
    : string
    requires i < |parts|
  {
    var piece := PieceText(text, parts[i], target, p, rs);
    if parts[i].Mask? then piece
    else
      (if i == 0 then text[..0] else Behind(text, parts[i - 1], target, p)) + piece +
      (if i + 1 == |parts| then z else Ahead(text, parts[i + 1], target, p))
  }

  function PlaceText(text: string, parts: seq<Part>, i: nat, target: Span, p: Policy, rs: Replacements): string
    requires i < |parts|
  {
    PlaceBefore(text, parts, i, target, p, rs, text[..0])
  }

  predicate AllWithin(text: string, parts: seq<Part>) {
    forall part :: part in parts ==> part.span.end <= |text|
  }

  /** The places of all parts but the last do not depend on whether the last is there or what it shows follows. */
  lemma SamePlace(text: string, parts: seq<Part>, i: nat, target: Span, p: Policy, rs: Replacements, z: string,
                  next: string)
    requires i < |parts| - 1 && Adjoining(parts)
    requires parts[|parts| - 1].Mask? ==> next == Ahead(text, parts[|parts| - 1], target, p)
    ensures PlaceBefore(text, parts[..|parts| - 1], i, target, p, rs, next) ==
            PlaceBefore(text, parts, i, target, p, rs, z)
  {
  }

  lemma PieceOfMask(text: string, part: Part, target: Span, p: Policy, rs: Replacements)
    requires part.Mask? && part.span.end <= |text|
    ensures PieceText(text, part, target, p, rs) == MaskOf(TextOf(text, part.span), PolicyFor(part.span, target, p))
  {
  }

  /** A mask holds what it reveals, and its marker. */
  lemma PieceHolds(text: string, part: Part, target: Span, p: Policy, rs: Replacements, t: string)
    requires part.Mask? && part.span.end <= |text| && !Contains(PieceText(text, part, target, p, rs), t)
    ensures !Contains(Ahead(text, part, target, p), t) && !Contains(Behind(text, part, target, p), t)
    ensures !Contains(Marker(Hidden(TextOf(text, part.span), PolicyFor(part.span, target, p))), t)
  {
    var secret, q := TextOf(text, part.span), PolicyFor(part.span, target, p);
    PieceOfMask(text, part, target, p, rs);
    if Contains(Head(secret, q), t) { MaskHoldsHead(secret, q, t); }
    if Contains(Tail(secret, q), t) { MaskHoldsTail(secret, q, t); }
    if Contains(Marker(Hidden(secret, q)), t) { MaskHoldsMarker(secret, q, t); }
  }

  /** Nothing is held by any part, nor by what stands behind the last one. */
  ghost predicate NoneHeld(text: string, parts: seq<Part>, target: Span, p: Policy, rs: Replacements, z: string,
                           t: string)
  {
    && !Contains(z, t)
    && (forall i :: 0 <= i < |parts| ==> !Contains(PlaceBefore(text, parts, i, target, p, rs, z), t))
    && (parts != [] && parts[|parts| - 1].Mask? ==>
          !Contains(Behind(text, parts[|parts| - 1], target, p) + z, t))
  }

  lemma NoneHeldBeforeMask(text: string, parts: seq<Part>, target: Span, p: Policy, rs: Replacements, z: string,
                           t: string)
    requires parts != [] && parts[|parts| - 1].Mask? && AllWithin(text, parts) && Adjoining(parts)
    requires NoneHeld(text, parts, target, p, rs, z, t)
    ensures NoneHeld(text, parts[..|parts| - 1], target, p, rs, Ahead(text, parts[|parts| - 1], target, p), t)
  {
    var k := |parts| - 1;
    var front, next := parts[..k], Ahead(text, parts[k], target, p);
    assert parts[k] in parts;
    assert PlaceBefore(text, parts, k, target, p, rs, z) == PieceText(text, parts[k], target, p, rs);
    PieceHolds(text, parts[k], target, p, rs, t);
    forall i | 0 <= i < k ensures !Contains(PlaceBefore(text, front, i, target, p, rs, next), t) {
      SamePlace(text, parts, i, target, p, rs, z, next);
    }
    if k > 0 && parts[k - 1].Mask? {
      assert parts[k - 1] in parts;
      assert PlaceBefore(text, parts, k - 1, target, p, rs, z) == PieceText(text, parts[k - 1], target, p, rs);
      BetweenMasks(text, parts[k - 1], parts[k], target, p, rs, t);
    }
  }

  /** Between two masks nothing is revealed on both sides. */
  lemma BetweenMasks(text: string, a: Part, b: Part, target: Span, p: Policy, rs: Replacements, t: string)
    requires a.Mask? && a.span.end <= |text| && !Contains(PieceText(text, a, target, p, rs), t)
    requires b.Mask? && b.span.end <= |text| && !Contains(PieceText(text, b, target, p, rs), t)
    ensures !Contains(Behind(text, a, target, p) + Ahead(text, b, target, p), t)
  {
    var w, z := Behind(text, a, target, p), Ahead(text, b, target, p);
    PieceHolds(text, a, target, p, rs, t);
    PieceHolds(text, b, target, p, rs, t);
    RevealedOnce(text, b, a, target, p);
    assert |z| == 0 ==> w + z == w;
    assert |w| == 0 ==> w + z == z;
  }

  lemma NoneHeldBeforeStretch(text: string, parts: seq<Part>, target: Span, p: Policy, rs: Replacements, z: string,
                              t: string)
    requires parts != [] && parts[|parts| - 1].Context? && AllWithin(text, parts) && Adjoining(parts)
    requires NoneHeld(text, parts, target, p, rs, z, t)
    ensures NoneHeld(text, parts[..|parts| - 1], target, p, rs,
                     PieceText(text, parts[|parts| - 1], target, p, rs) + z, t)
  {
    var k := |parts| - 1;
    var front, next := parts[..k], PieceText(text, parts[k], target, p, rs) + z;
    var before := if k == 0 then text[..0] else Behind(text, parts[k - 1], target, p);
    assert PlaceBefore(text, parts, k, target, p, rs, z) == before + next;
    if Contains(next, t) { InSecond(before, next, t); }
    forall i | 0 <= i < k ensures !Contains(PlaceBefore(text, front, i, target, p, rs, next), t) {
      SamePlace(text, parts, i, target, p, rs, z, next);
    }
  }

  /** The joined parts, and what stands behind them, hold no more than the parts themselves. */
  lemma {:induction false} BodyHoldsNoMore(text: string, parts: seq<Part>, target: Span, p: Policy, rs: Replacements,
                                           z: string, t: string)
    requires Clear(t) && AllWithin(text, parts) && Adjoining(parts) && NoneHeld(text, parts, target, p, rs, z, t)
    ensures !Contains(Body(text, parts, target, p, rs) + z, t)
    decreases |parts|
  {
    if |parts| == 0 {
      assert Body(text, parts, target, p, rs) + z == z;
    } else {
      var front, last := parts[..|parts| - 1], parts[|parts| - 1];
      if last.Mask? {
        NoneHeldBeforeMask(text, parts, target, p, rs, z, t);
        BodyHoldsNoMore(text, front, target, p, rs, Ahead(text, last, target, p), t);
        OverMask(text, parts, target, p, rs, z, t);
      } else {
        NoneHeldBeforeStretch(text, parts, target, p, rs, z, t);
        BodyHoldsNoMore(text, front, target, p, rs, PieceText(text, last, target, p, rs) + z, t);
        OverStretch(text, parts, target, p, rs, z);
      }
    }
  }

  lemma OverMask(text: string, parts: seq<Part>, target: Span, p: Policy, rs: Replacements, z: string, t: string)
    requires Clear(t) && parts != [] && parts[|parts| - 1].Mask? && AllWithin(text, parts)
    requires NoneHeld(text, parts, target, p, rs, z, t)
    requires !Contains(Body(text, parts[..|parts| - 1], target, p, rs) + Ahead(text, parts[|parts| - 1], target, p), t)
    ensures !Contains(Body(text, parts, target, p, rs) + z, t)
  {
    var k := |parts| - 1;
    var s, before := parts[k].span, Body(text, parts[..k], target, p, rs);
    assert parts[k] in parts;
    assert PlaceBefore(text, parts, k, target, p, rs, z) == PieceText(text, parts[k], target, p, rs);
    PieceHolds(text, parts[k], target, p, rs, t);
    PieceOfMask(text, parts[k], target, p, rs);
    if Contains(before + MaskOf(TextOf(text, s), PolicyFor(s, target, p)) + z, t) {
      MaskSplits(before, TextOf(text, s), PolicyFor(s, target, p), z, t);
    }
  }

  // ----- and no less -----

  lemma BodyEndsRevealed(text: string, parts: seq<Part>, target: Span, p: Policy, rs: Replacements)
    returns (front: string)
    requires parts != [] && parts[|parts| - 1].Mask? && parts[|parts| - 1].span.end <= |text|
    ensures Body(text, parts, target, p, rs) == front + Behind(text, parts[|parts| - 1], target, p)
  {
    var last := parts[|parts| - 1];
    var before := Body(text, parts[..|parts| - 1], target, p, rs);
    PieceOfMask(text, last, target, p, rs);
    var start, c := MaskEnds(TextOf(text, last.span), PolicyFor(last.span, target, p));
    front := before + (start + [c]);
    Regrouped(before, start + [c], Behind(text, last, target, p));
  }

  lemma LastPlaceIsHeld(text: string, parts: seq<Part>, target: Span, p: Policy, rs: Replacements, z: string, t: string)
    requires parts != [] && AllWithin(text, parts) && Adjoining(parts)
    requires Contains(PlaceBefore(text, parts, |parts| - 1, target, p, rs, z), t)
    ensures Contains(Body(text, parts, target, p, rs) + z, t)
  {
    var k := |parts| - 1;
    var before, piece := Body(text, parts[..k], target, p, rs), PieceText(text, parts[k], target, p, rs);
    if parts[k].Mask? {
      InsideIsContained(before, piece, z, t);
    } else if k == 0 {
      HeldBehind(text[..0], before, piece, z, t);
    } else {
      assert parts[k - 1] in parts;
      var front := BodyEndsRevealed(text, parts[..k], target, p, rs);
      HeldBehind(Behind(text, parts[k - 1], target, p), front, piece, z, t);
    }
  }

  lemma HeldBehind(revealed: string, front: string, piece: string, z: string, t: string)
    requires Contains(revealed + piece + z, t)
    ensures Contains(front + revealed + piece + z, t)
    ensures |revealed| == 0 ==> Contains(front + piece + z, t)
  {
    InSecond(front, revealed + piece + z, t);
    assert front + (revealed + piece + z) == front + revealed + piece + z;
    assert |revealed| == 0 ==> front + revealed == front;
  }

  lemma HeldAhead(before: string, next: string, c: char, rest: string, z: string, t: string)
    requires Contains(before + next, t)
    ensures Contains(before + (next + [c] + rest) + z, t)
  {
    InFirst(before + next, [c] + rest + z, t);
    assert before + next + ([c] + rest + z) == before + (next + [c] + rest) + z;
  }

  lemma HeldOverMask(text: string, parts: seq<Part>, target: Span, p: Policy, rs: Replacements, z: string, t: string)
    requires parts != [] && parts[|parts| - 1].Mask? && parts[|parts| - 1].span.end <= |text|
    requires Contains(Body(text, parts[..|parts| - 1], target, p, rs) + Ahead(text, parts[|parts| - 1], target, p), t)
    ensures Contains(Body(text, parts, target, p, rs) + z, t)
  {
    var last, before := parts[|parts| - 1], Body(text, parts[..|parts| - 1], target, p, rs);
    PieceOfMask(text, last, target, p, rs);
    var c, rest := MaskStarts(TextOf(text, last.span), PolicyFor(last.span, target, p));
    HeldAhead(before, Ahead(text, last, target, p), c, rest, z, t);
  }

  lemma OverStretch(text: string, parts: seq<Part>, target: Span, p: Policy, rs: Replacements, z: string)
    requires parts != []
    ensures Body(text, parts, target, p, rs) + z ==
            Body(text, parts[..|parts| - 1], target, p, rs) + (PieceText(text, parts[|parts| - 1], target, p, rs) + z)
  {
    Regrouped(Body(text, parts[..|parts| - 1], target, p, rs), PieceText(text, parts[|parts| - 1], target, p, rs), z);
  }

  /** What any part holds in its place, the joined parts hold. */
  lemma {:induction false} PlaceIsHeld(text: string, parts: seq<Part>, i: nat, target: Span, p: Policy,
                                       rs: Replacements, z: string, t: string)
    requires i < |parts| && AllWithin(text, parts) && Adjoining(parts)
    requires Contains(PlaceBefore(text, parts, i, target, p, rs, z), t)
    ensures Contains(Body(text, parts, target, p, rs) + z, t)
    decreases |parts|
  {
    var k := |parts| - 1;
    assert parts[k] in parts;
    if i == k {
      LastPlaceIsHeld(text, parts, target, p, rs, z, t);
    } else if parts[k].Mask? {
      SamePlace(text, parts, i, target, p, rs, z, Ahead(text, parts[k], target, p));
      PlaceIsHeld(text, parts[..k], i, target, p, rs, Ahead(text, parts[k], target, p), t);
      HeldOverMask(text, parts, target, p, rs, z, t);
    } else {
      SamePlace(text, parts, i, target, p, rs, z, PieceText(text, parts[k], target, p, rs) + z);
      PlaceIsHeld(text, parts[..k], i, target, p, rs, PieceText(text, parts[k], target, p, rs) + z, t);
      OverStretch(text, parts, target, p, rs, z);
    }
  }

  // ----- the whole snippet -----

  lemma NotInFrontEdge(more: bool, body: string, t: string)
    requires Clear(t) && Contains(Edge(more) + body, t)
    ensures Contains(body, t)
  {
    var none := body[..0];
    ClearHasNo(t, DOTS);
    NothingInNothing(none, t);
    assert none + body == body;
    if more {
      assert Edge(more) + body == none + [DOTS] + body;
      Barrier(none, DOTS, body, t);
    } else {
      assert Edge(more) + body == body;
    }
  }

  lemma NotInBackEdge(body: string, more: bool, t: string)
    requires Clear(t) && Contains(body + Edge(more), t)
    ensures Contains(body, t)
  {
    var none := body[..0];
    ClearHasNo(t, DOTS);
    NothingInNothing(none, t);
    if more {
      assert body + Edge(more) == body + [DOTS] + none;
      Barrier(body, DOTS, none, t);
    } else {
      assert body + Edge(more) == body;
    }
  }

  lemma InsideEdges(left: bool, body: string, right: bool, t: string)
    requires Clear(t)
    ensures Contains(Edge(left) + body + Edge(right), t) <==> Contains(body, t)
  {
    if Contains(body, t) {
      InsideIsContained(Edge(left), body, Edge(right), t);
    }
    if Contains(Edge(left) + body + Edge(right), t) {
      NotInBackEdge(Edge(left) + body, right, t);
      NotInFrontEdge(left, body, t);
    }
  }

  /** The texts a snippet is scrubbed with. */
  function ListOf(text: string, target: Span, p: Policy, others: seq<Span>): Replacements
    requires target.end <= |text|
  {
    ReplacementsFor(text, MaskSpans(DraftOf(text, target, p, others).parts), others, target, p)
  }

  lemma BodyOfParts(text: string, parts: seq<Part>, target: Span, p: Policy, rs: Replacements, t: string)
    requires Clear(t) && AllWithin(text, parts) && Adjoining(parts)
    ensures Contains(Body(text, parts, target, p, rs), t) <==>
            exists i :: 0 <= i < |parts| && Contains(PlaceText(text, parts, i, target, p, rs), t)
  {
    var none, body := text[..0], Body(text, parts, target, p, rs);
    assert body + none == body;
    if i :| 0 <= i < |parts| && Contains(PlaceText(text, parts, i, target, p, rs), t) {
      PlaceIsHeld(text, parts, i, target, p, rs, none, t);
    } else {
      NoneHeldAtEnd(text, parts, target, p, rs, none, t);
      BodyHoldsNoMore(text, parts, target, p, rs, none, t);
    }
  }

  lemma NoneHeldAtEnd(text: string, parts: seq<Part>, target: Span, p: Policy, rs: Replacements, none: string,
                      t: string)
    requires Clear(t) && AllWithin(text, parts) && none == text[..0]
    requires forall i :: 0 <= i < |parts| ==> !Contains(PlaceText(text, parts, i, target, p, rs), t)
    ensures NoneHeld(text, parts, target, p, rs, none, t)
  {
    NothingInNothing(none, t);
    forall i | 0 <= i < |parts| ensures !Contains(PlaceBefore(text, parts, i, target, p, rs, none), t) {
      assert !Contains(PlaceText(text, parts, i, target, p, rs), t);
    }
    if parts != [] && parts[|parts| - 1].Mask? {
      var last := parts[|parts| - 1];
      assert last in parts;
      assert PlaceText(text, parts, |parts| - 1, target, p, rs) == PieceText(text, last, target, p, rs);
      PieceHolds(text, last, target, p, rs, t);
      assert Behind(text, last, target, p) + none == Behind(text, last, target, p);
    }
  }

  lemma HeldInBody(text: string, target: Span, p: Policy, others: seq<Span>, t: string)
    requires target.end <= |text| && (forall s :: s in others ==> s.end <= |text|) && Clear(t)
    ensures var d := DraftOf(text, target, p, others);
            && AllWithin(text, d.parts) && Adjoining(d.parts)
            && (Contains(d.text, t) <==> Contains(Body(text, d.parts, target, p, ListOf(text, target, p, others)), t))
  {
    var d := DraftOf(text, target, p, others);
    DraftIsSafe(text, target, p, others);
    InsideEdges(d.window.start > 0, Body(text, d.parts, target, p, ListOf(text, target, p, others)),
                d.window.end < |text|, t);
  }

  /**
   A text without brackets or ellipses is in a snippet exactly when one part holds it in its place: no
   text arises across the edge of a mask, except with what the target's mask reveals.
   */
  lemma HeldIff(text: string, target: Span, p: Policy, others: seq<Span>, t: string)
    requires target.end <= |text| && (forall s :: s in others ==> s.end <= |text|) && Clear(t)
    ensures var d := DraftOf(text, target, p, others);
            Contains(d.text, t) <==>
            exists i :: 0 <= i < |d.parts| &&
                        Contains(PlaceText(text, d.parts, i, target, p, ListOf(text, target, p, others)), t)
  {
    var d := DraftOf(text, target, p, others);
    HeldInBody(text, target, p, others, t);
    BodyOfParts(text, d.parts, target, p, ListOf(text, target, p, others), t);
  }

  /** So a snippet is refused exactly when a matched text is held by one part of it in its place. */
  lemma RefusedByPart(text: string, target: Span, p: Policy, others: seq<Span>)
    requires target.end <= |text| && forall s :: s in others ==> s.end <= |text|
    requires forall t :: IsMatchedText(text, [target] + others, t) ==> Clear(t)
    ensures var d := DraftOf(text, target, p, others);
            Leaks(d) <==>
            exists t, i :: IsMatchedText(text, [target] + others, t) && 0 <= i < |d.parts| &&
                           Contains(PlaceText(text, d.parts, i, target, p, ListOf(text, target, p, others)), t)
  {
    var d, rs := DraftOf(text, target, p, others), ListOf(text, target, p, others);
    DraftIsSafe(text, target, p, others);
    if Leaks(d) {
      var k :| 0 <= k < |d.secrets| && Contains(d.text, d.secrets[k]);
      assert d.secrets[k] in d.secrets;
      HeldIff(text, target, p, others, d.secrets[k]);
    }
    if t, i :| IsMatchedText(text, [target] + others, t) && 0 <= i < |d.parts| &&
               Contains(PlaceText(text, d.parts, i, target, p, rs), t) {
      HeldIff(text, target, p, others, t);
      assert t in d.secrets;
      var k :| 0 <= k < |d.secrets| && d.secrets[k] == t;
    }
  }

  // ----- words: what a shown stretch keeps -----

  /** A shown stretch keeps no matched text, and completes none with what follows if it was free of it. */
  lemma StretchIsClean(fragment: string, rs: Replacements, p: Policy, z: string, t: string, size: nat)
    requires AllProper(rs, p, size) && Knows(rs, t) && Unmarked(t, size) && Solid(t) && Free(fragment, z, t)
    ensures !Contains(ContextText(fragment, rs) + z, t)
  {
    ScrubTakesOut(fragment, rs, p, t, size);
    ScrubStaysFree(fragment, rs, p, z, t, size);
    FreeIsOut(Scrubbed(fragment, rs), z, t);
    CollapseKeepsOut(Scrubbed(fragment, rs), z, t);
  }

  /** Nor with what precedes it. */
  lemma StretchIsCleanBehind(w: string, fragment: string, rs: Replacements, p: Policy, t: string, size: nat)
    requires AllProper(rs, p, size) && Knows(rs, t) && Unmarked(t, size) && Solid(t)
    requires NoneBefore(w + fragment, t, |w|)
    ensures !Contains(w + ContextText(fragment, rs), t)
  {
    ScrubTakesOut(fragment, rs, p, t, size);
    ScrubStaysLeft(w, fragment, rs, p, t, size);
    LeftIsOut(w, Scrubbed(fragment, rs), t);
    CollapseKeepsOutBehind(w, Scrubbed(fragment, rs), t);
  }

  lemma FreeOfNothing(fragment: string, z: string, t: string)
    requires |z| == 0
    ensures Free(fragment, z, t)
  {
    assert fragment + z == fragment;
  }

  /** A copy over a seam in the text is cut there. */
  lemma SeamIsCut(text: string, from: nat, seam: nat, until: nat, t: string, i: nat)
    requires from <= seam <= until <= |text|
    ensures OccursAt(text[from..seam] + text[seam..until], t, i) && i < seam - from < i + |t| ==>
              Cuts(text, t, seam, from + i)
  {
    var s := text[from..until];
    assert text[from..seam] + text[seam..until] == s;
    if OccursAt(s, t, i) {
      assert text == text[..from] + s + text[until..];
      assert t == s[i..i + |t|] == text[from + i..from + i + |t|];
    }
  }

  /** A stretch is free of the text behind a seam that cuts no copy. */
  lemma FreeAtSeam(text: string, from: nat, seam: nat, until: nat, t: string)
    requires from <= seam <= until <= |text| && forall i :: !Cuts(text, t, seam, i)
    requires !Contains(text[seam..until], t)
    ensures Free(text[from..seam], text[seam..until], t)
  {
    var a, z := text[from..seam], text[seam..until];
    forall i: nat | |a| < i + |t| ensures !OccursAt(a + z, t, i) {
      SeamIsCut(text, from, seam, until, t, i);
      if i >= |a| {
        BackOccurs(a, z, t, i);
        assert OccursAt(z, t, i - |a|) ==> Contains(z, t);
      }
    }
  }

  /** And of the text before one. */
  lemma LeftAtSeam(text: string, from: nat, seam: nat, until: nat, t: string)
    requires from <= seam <= until <= |text| && forall i :: !Cuts(text, t, seam, i)
    requires !Contains(text[from..seam], t)
    ensures NoneBefore(text[from..seam] + text[seam..until], t, seam - from)
  {
    var w, s := text[from..seam], text[seam..until];
    forall i: nat | i < seam - from ensures !OccursAt(w + s, t, i) {
      SeamIsCut(text, from, seam, until, t, i);
      FrontOccurs(w, s, t, i);
      assert OccursAt(w, t, i) ==> Contains(w, t);
    }
  }

  lemma NoCutOf(text: string, secrets: seq<string>, boundary: int, t: string)
    requires t in secrets && NoCut(text, secrets, boundary)
    ensures forall i :: !Cuts(text, t, boundary, i)
  {
    var k :| 0 <= k < |secrets| && secrets[k] == t;
  }

  /** What is known of one matched word that neither the target's mask nor any marker holds. */
  ghost predicate Word(text: string, target: Span, p: Policy, rs: Replacements, secrets: seq<string>, t: string)
    requires target.end <= |text|
  {
    && t in secrets && Knows(rs, t) && AllProper(rs, p, |text|) && Unmarked(t, |text|) && Solid(t)
    && !Contains(MaskOf(TextOf(text, target), p), t)
  }

  /** A stretch and what the target's mask reveals right behind it, or nothing. */
  lemma StretchBefore(text: string, secrets: seq<string>, stretch: Span, rs: Replacements, target: Span, p: Policy,
                      z: string, t: string)
    requires target.end <= |text| && stretch.end <= |text| && Word(text, target, p, rs, secrets, t)
    requires EdgesClean(text, secrets, Part.Context(stretch)) && !Contains(z, t)
    requires |z| == 0 || (z == Head(TextOf(text, target), p) && stretch.end == target.start)
    ensures !Contains(ContextText(TextOf(text, stretch), rs) + z, t)
  {
    if |z| == 0 {
      FreeOfNothing(TextOf(text, stretch), z, t);
    } else {
      var until := target.start + |z|;
      assert z == text[target.start..until];
      NoCutOf(text, secrets, target.start, t);
      FreeAtSeam(text, stretch.start, target.start, until, t);
    }
    StretchIsClean(TextOf(text, stretch), rs, p, z, t, |text|);
  }

  /** A stretch behind what the target's mask reveals last. */
  lemma StretchBehind(text: string, secrets: seq<string>, stretch: Span, rs: Replacements, target: Span, p: Policy,
                      t: string)
    requires target.end <= |text| && stretch.end <= |text| && Word(text, target, p, rs, secrets, t)
    requires EdgesClean(text, secrets, Part.Context(stretch)) && stretch.start == target.end
    requires !Contains(Tail(TextOf(text, target), p), t)
    ensures !Contains(Tail(TextOf(text, target), p) + ContextText(TextOf(text, stretch), rs), t)
  {
    var w := Tail(TextOf(text, target), p);
    var from := target.end - |w|;
    assert w == text[from..target.end];
    NoCutOf(text, secrets, target.end, t);
    LeftAtSeam(text, from, target.end, stretch.end, t);
    StretchIsCleanBehind(w, TextOf(text, stretch), rs, p, t, |text|);
  }

  /** What the parts of a snippet have in common. */
  ghost predicate Sound(text: string, secrets: seq<string>, parts: seq<Part>, target: Span) {
    && Adjoining(parts) && Leaving(parts, target) && AllWithin(text, parts)
    && forall part :: part in parts && part.Context? ==> EdgesClean(text, secrets, part)
  }

  lemma OnlyTargetReveals(text: string, part: Part, target: Span, p: Policy)
    ensures |Ahead(text, part, target, p)| > 0 || |Behind(text, part, target, p)| > 0 ==> part == Mask(target)
  {
    if part.span.end <= |text| {
      DefaultReveals(TextOf(text, part.span));
    }
  }

  lemma TargetRevealsNone(text: string, part: Part, target: Span, p: Policy, t: string)
    requires target.end <= |text| && t != "" && !Contains(MaskOf(TextOf(text, target), p), t)
    ensures !Contains(Ahead(text, part, target, p), t) && !Contains(Behind(text, part, target, p), t)
  {
    OnlyTargetReveals(text, part, target, p);
    if part == Mask(target) {
      if Contains(Ahead(text, part, target, p), t) { MaskHoldsHead(TextOf(text, target), p, t); }
      if Contains(Behind(text, part, target, p), t) { MaskHoldsTail(TextOf(text, target), p, t); }
    }
  }

  /** No stretch holds such a word in its place. */
  lemma NoStretchHolds(text: string, secrets: seq<string>, parts: seq<Part>, i: nat, target: Span, p: Policy,
                       rs: Replacements, t: string)
    requires target.end <= |text| && Sound(text, secrets, parts, target) && i < |parts| && parts[i].Context?
    requires Word(text, target, p, rs, secrets, t)
    ensures !Contains(PlaceText(text, parts, i, target, p, rs), t)
  {
    var none := text[..0];
    var w := if i == 0 then none else Behind(text, parts[i - 1], target, p);
    var z := if i + 1 == |parts| then none else Ahead(text, parts[i + 1], target, p);
    var shown := ContextText(TextOf(text, parts[i].span), rs);
    assert parts[i] in parts && PlaceText(text, parts, i, target, p, rs) == w + shown + z;
    NothingInNothing(none, t);
    if i > 0 {
      OnlyTargetReveals(text, parts[i - 1], target, p);
      TargetRevealsNone(text, parts[i - 1], target, p, t);
    }
    if i + 1 < |parts| {
      OnlyTargetReveals(text, parts[i + 1], target, p);
      TargetRevealsNone(text, parts[i + 1], target, p, t);
    }
    if |w| == 0 {
      StretchBefore(text, secrets, parts[i].span, rs, target, p, z, t);
      assert w + shown + z == shown + z;
    } else {
      if i + 1 < |parts| { RevealedOnce(text, parts[i + 1], parts[i - 1], target, p); }
      StretchBehind(text, secrets, parts[i].span, rs, target, p, t);
      assert w + shown + z == w + shown;
    }
  }

  /** Nor does any mask but the target's, which is taken not to. */
  lemma NoMaskHolds(text: string, part: Part, target: Span, p: Policy, rs: Replacements, secrets: seq<string>,
                    t: string)
    requires target.end <= |text| && part.Mask? && part.span.end <= |text| && Word(text, target, p, rs, secrets, t)
    ensures !Contains(PieceText(text, part, target, p, rs), t)
  {
    var secret, q, none := TextOf(text, part.span), PolicyFor(part.span, target, p), text[..0];
    PieceOfMask(text, part, target, p, rs);
    if part.span != target {
      DefaultReveals(secret);
      assert none + MaskOf(secret, q) + none == MaskOf(secret, q);
      NothingInNothing(none + Head(secret, q), t);
      NothingInNothing(Tail(secret, q) + none, t);
      if Contains(MaskOf(secret, q), t) {
        MaskSplits(none, secret, q, none, t);
      }
    }
  }

  lemma EntriesAreProper(rs: Replacements, own: string, p: Policy, size: nat)
    requires MasksAs(rs, own, p) && Untied(own, p) && forall e :: e in rs ==> 1 < |e.0| <= size
    ensures AllProper(rs, p, size)
  {
    forall e | e in rs ensures Proper(e, p, size) {
      var q := if e.1 == MaskOf(e.0, DefaultPolicy()) then DefaultPolicy() else p;
      DefaultReveals(e.0);
      assert q in {p, DefaultPolicy()} && Untied(e.0, q) && e.1 == MaskOf(e.0, q);
    }
  }

  /** The list a snippet is scrubbed with: proper entries, one for each matched text. */
  lemma ListScrubs(text: string, plan: seq<Span>, others: seq<Span>, target: Span, p: Policy)
    requires (forall s :: s in plan ==> s.end <= |text|) && forall s :: s in others ==> s.end <= |text|
    requires target in plan && Untied(TextOf(text, target), p)
    ensures var rs := ReplacementsFor(text, plan, others, target, p);
            AllProper(rs, p, |text|) && forall t :: IsMatchedText(text, [target] + others, t) ==> Knows(rs, t)
  {
    var rs := ReplacementsFor(text, plan, others, target, p);
    ReplacementsAre(text, plan, others, target, p);
    forall e | e in rs ensures 1 < |e.0| <= |text| {
      var i :| 0 <= i < |rs| && rs[i] == e;
      assert Knows(rs, e.0);
    }
    EntriesAreProper(rs, TextOf(text, target), p, |text|);
    forall t | IsMatchedText(text, [target] + others, t) ensures Knows(rs, t) {
      StillMatched(text, plan, others, target, t);
    }
  }

  lemma StillMatched(text: string, plan: seq<Span>, others: seq<Span>, target: Span, t: string)
    requires target in plan && IsMatchedText(text, [target] + others, t)
    ensures IsMatchedText(text, plan + others, t)
  {
    var j :| 0 <= j < |[target] + others| && ([target] + others)[j].end <= |text|
             && t == TextOf(text, ([target] + others)[j]);
    if j == 0 {
      var n :| 0 <= n < |plan| && plan[n] == target;
      assert (plan + others)[n] == target;
    } else {
      assert (plan + others)[|plan| + j - 1] == others[j - 1];
    }
  }

  /** A word that the target's mask does not hold is not in the snippet. */
  lemma WordIsOut(text: string, target: Span, p: Policy, others: seq<Span>, t: string)
    requires target.end <= |text| && forall s :: s in others ==> s.end <= |text|
    requires Untied(TextOf(text, target), p)
    requires IsMatchedText(text, [target] + others, t) && Ordinary(t, |text|)
    requires !Contains(MaskOf(TextOf(text, target), p), t)
    ensures !Contains(DraftOf(text, target, p, others).text, t)
  {
    var d, rs := DraftOf(text, target, p, others), ListOf(text, target, p, others);
    DraftIsSound(text, target, p, others);
    UnmaskedIsUnmarked(TextOf(text, target), p, t, |text|);
    NoneHolds(text, d.secrets, d.parts, target, p, rs, t);
    HeldInBody(text, target, p, others, t);
  }

  lemma NoneHolds(text: string, secrets: seq<string>, parts: seq<Part>, target: Span, p: Policy, rs: Replacements,
                  t: string)
    requires target.end <= |text| && Sound(text, secrets, parts, target) && Word(text, target, p, rs, secrets, t)
    ensures !Contains(Body(text, parts, target, p, rs), t)
  {
    forall i | 0 <= i < |parts| ensures !Contains(PlaceText(text, parts, i, target, p, rs), t) {
      NoPartHolds(text, secrets, parts, i, target, p, rs, t);
    }
    BodyOfParts(text, parts, target, p, rs, t);
  }

  lemma NoPartHolds(text: string, secrets: seq<string>, parts: seq<Part>, i: nat, target: Span, p: Policy,
                    rs: Replacements, t: string)
    requires target.end <= |text| && Sound(text, secrets, parts, target) && i < |parts|
    requires Word(text, target, p, rs, secrets, t)
    ensures !Contains(PlaceText(text, parts, i, target, p, rs), t)
  {
    assert parts[i] in parts;
    if parts[i].Mask? {
      NoMaskHolds(text, parts[i], target, p, rs, secrets, t);
    } else {
      NoStretchHolds(text, secrets, parts, i, target, p, rs, t);
    }
  }

  /** What the draft brings with it. */
  lemma DraftIsSound(text: string, target: Span, p: Policy, others: seq<Span>)
    requires target.end <= |text| && forall s :: s in others ==> s.end <= |text|
    requires Untied(TextOf(text, target), p)
    ensures var d, rs := DraftOf(text, target, p, others), ListOf(text, target, p, others);
            && Sound(text, d.secrets, d.parts, target) && AllProper(rs, p, |text|)
            && forall t :: IsMatchedText(text, [target] + others, t) ==> t in d.secrets && Knows(rs, t)
  {
    var d := DraftOf(text, target, p, others);
    DraftIsSafe(text, target, p, others);
    MaskSpansAreParts(d.parts);
    assert Part.Mask(target) in d.parts;
    ListScrubs(text, MaskSpans(d.parts), others, target, p);
  }

  // ----- texts with white space that no snippet shows -----

  lemma NoRunsWithin(s: string, t: string)
    requires NoRuns(s) && Contains(s, t)
    ensures NoRuns(t)
  {
    var i :| 0 <= i <= |s| && OccursAt(s, t, i);
    assert forall k :: 0 <= k < |t| ==> t[k] == s[i..i + |t|][k] == s[i + k];
  }

  /** The seam does not put two blanks side by side. */
  predicate Fits(a: string, b: string) {
    |a| == 0 || |b| == 0 || !IsSpace(a[|a| - 1]) || !IsSpace(b[0])
  }

  lemma NoRunsJoined(a: string, b: string)
    requires NoRuns(a) && NoRuns(b) && Fits(a, b)
    ensures NoRuns(a + b)
  {
  }

  lemma SolidHasNoRuns(s: string)
    requires Solid(s)
    ensures NoRuns(s)
  {
  }

  lemma MarkerHasNoRuns(n: nat)
    ensures NoRuns(Marker(n)) && |Marker(n)| > 0
    ensures !IsSpace(Marker(n)[0]) && !IsSpace(Marker(n)[|Marker(n)| - 1])
  {
    MarkerIs(n);
    MarkerEnds(n);
    DecimalIsFigures(n);
    var words := "chars" + [' '] + ("redacted" + [']']);
    assert NoRuns(words) && !IsSpace(words[0]);
    NoRunsJoined(Decimal(n), [' ']);
    NoRunsJoined(Decimal(n) + [' '], words);
    NoRunsJoined(['['], Decimal(n) + [' '] + words);
    assert Marker(n) == ['['] + (Decimal(n) + [' '] + words);
  }

  /** Neither end is white space. */
  predicate Closed(s: string) {
    |s| > 0 && !IsSpace(s[0]) && !IsSpace(s[|s| - 1])
  }

  /** A mask whose revealed part has no white space has blanks only inside. */
  lemma MaskHasNoRuns(secret: string, p: Policy)
    requires Solid(Head(secret, p)) && Solid(Tail(secret, p))
    ensures var mask := MaskOf(secret, p);
            NoRuns(mask) && Closed(mask)
  {
    var lead, m, trail := Lead(Head(secret, p)), Marker(Hidden(secret, p)), Trail(Tail(secret, p));
    MaskIs(secret, p);
    MarkerHasNoRuns(Hidden(secret, p));
    assert Solid(lead) && Solid(trail);
    SolidHasNoRuns(lead);
    SolidHasNoRuns(trail);
    NoRunsJoined(lead, m);
    NoRunsJoined(lead + m, trail);
    assert lead + m + trail == MaskOf(secret, p);
  }

  lemma PieceHasNoRuns(text: string, part: Part, target: Span, p: Policy, rs: Replacements)
    requires target.end <= |text| && part.span.end <= |text|
    requires Solid(Head(TextOf(text, target), p)) && Solid(Tail(TextOf(text, target), p))
    ensures var piece := PieceText(text, part, target, p, rs); NoRuns(piece) && (part.Mask? ==> Closed(piece))
  {
    if part.Mask? {
      DefaultReveals(TextOf(text, part.span));
      MaskHasNoRuns(TextOf(text, part.span), PolicyFor(part.span, target, p));
    } else {
      CollapsedHasNoRuns(Scrubbed(TextOf(text, part.span), rs));
    }
  }

  predicate ClosedBehind(s: string) {
    |s| > 0 && !IsSpace(s[|s| - 1])
  }

  lemma JoinedAtMask(a: string, b: string, mask: bool)
    requires NoRuns(a) && NoRuns(b) && if mask then Closed(b) else |a| == 0 || ClosedBehind(a)
    ensures NoRuns(a + b) && (mask ==> ClosedBehind(a + b))
  {
    NoRunsJoined(a, b);
  }

  lemma {:induction false} BodyHasNoRuns(text: string, parts: seq<Part>, target: Span, p: Policy, rs: Replacements)
    requires target.end <= |text| && Adjoining(parts) && forall part :: part in parts ==> part.span.end <= |text|
    requires Solid(Head(TextOf(text, target), p)) && Solid(Tail(TextOf(text, target), p))
    ensures var body := Body(text, parts, target, p, rs);
            NoRuns(body) && (parts != [] && parts[|parts| - 1].Mask? ==> ClosedBehind(body))
  {
    if |parts| > 0 {
      var front, last := parts[..|parts| - 1], parts[|parts| - 1];
      var before, piece := Body(text, front, target, p, rs), PieceText(text, last, target, p, rs);
      assert last in parts;
      BodyHasNoRuns(text, front, target, p, rs);
      PieceHasNoRuns(text, last, target, p, rs);
      assert |front| == 0 ==> |before| == 0;
      assert !last.Mask? && |front| > 0 ==> front[|front| - 1].Mask?;
      JoinedAtMask(before, piece, last.Mask?);
    }
  }

  /** A text with a run of white space, or with any but blanks, is not in the snippet. */
  lemma BrokenIsOut(text: string, target: Span, p: Policy, others: seq<Span>, t: string)
    requires target.end <= |text| && forall s :: s in others ==> s.end <= |text|
    requires Solid(Head(TextOf(text, target), p)) && Solid(Tail(TextOf(text, target), p)) && !NoRuns(t)
    ensures !Contains(DraftOf(text, target, p, others).text, t)
  {
    var d := DraftOf(text, target, p, others);
    var rs := ReplacementsFor(text, MaskSpans(d.parts), others, target, p);
    var body := Body(text, d.parts, target, p, rs);
    DraftIsSafe(text, target, p, others);
    BodyHasNoRuns(text, d.parts, target, p, rs);
    EdgesHaveNoRuns(d.window.start > 0, body, d.window.end < |text|);
    if Contains(d.text, t) {
      NoRunsWithin(d.text, t);
    }
  }

  lemma EdgesHaveNoRuns(left: bool, body: string, right: bool)
    requires NoRuns(body)
    ensures NoRuns(Edge(left) + body + Edge(right))
  {
    assert forall more :: NoRuns(Edge(more)) && Fits(Edge(more), body);
    NoRunsJoined(Edge(left), body);
    NoRunsJoined(Edge(left) + body, Edge(right));
  }

  // ----- exactly when a snippet is refused -----

  /**
   One word, and no number short enough to be a count; or white space no snippet shows, if the
   target's mask reveals none.
   */
  predicate Plain(t: string, text: string, target: Span, p: Policy)
    requires target.end <= |text|
  {
    || Ordinary(t, |text|)
    || (!NoRuns(t) && Solid(Head(TextOf(text, target), p)) && Solid(Tail(TextOf(text, target), p)))
  }

  /**
   For such texts, unless the end a mask reveals can begin another copy: the snippet is refused
   exactly when a matched text occurs in the target's own mask.
   */
  lemma RefusedIff(text: string, target: Span, p: Policy, others: seq<Span>)
    requires target.end <= |text| && forall s :: s in others ==> s.end <= |text|
    requires Untied(TextOf(text, target), p)
    requires forall t :: IsMatchedText(text, [target] + others, t) ==> Plain(t, text, target, p)
    ensures Leaks(DraftOf(text, target, p, others)) <==>
            exists t :: IsMatchedText(text, [target] + others, t) && Contains(MaskOf(TextOf(text, target), p), t)
  {
    var d := DraftOf(text, target, p, others);
    if t :| IsMatchedText(text, [target] + others, t) && Contains(MaskOf(TextOf(text, target), p), t) {
      MaskRefusesItself(text, target, p, others, t);
    } else {
      DraftIsSafe(text, target, p, others);
      forall k | 0 <= k < |d.secrets| ensures !Contains(d.text, d.secrets[k]) {
        var t := d.secrets[k];
        assert t in d.secrets && IsMatchedText(text, [target] + others, t);
        if Ordinary(t, |text|) {
          WordIsOut(text, target, p, others, t);
        } else {
          BrokenIsOut(text, target, p, others, t);
        }
      }
    }
  }
}
