/**
 What scrubbing matched texts out of context and collapsing its white space can and cannot leave
 behind: no copy of a scrubbed text, and no other text that was not there before.
 */
module Scrub {
  import opened Spans
  import opened Redaction
  import opened Rendering

  const DOTS: char := '\U{2026}'

  /** A bracket or an ellipsis: what sets a mask apart from what stands around it. */
  predicate IsBarrier(c: char) {
    c == '[' || c == ']' || c == DOTS
  }

  predicate IsFigure(c: char) {
    '0' <= c <= '9'
  }

  /** A text that can lie on one side of a barrier only. */
  predicate Clear(t: string) {
    |t| > 0 && forall i :: 0 <= i < |t| ==> !IsBarrier(t[i])
  }

  /** A clear text that is in no marker for up to `size` characters. */
  ghost predicate Unmarked(t: string, size: nat) {
    Clear(t) && forall n: nat :: n <= size ==> !Contains(Marker(n), t)
  }

  predicate Solid(y: string) {
    forall i :: 0 <= i < |y| ==> !IsSpace(y[i])
  }

  /** A text of one word that is not a mere number, or too long a number to count `size` characters. */
  predicate Ordinary(t: string, size: nat) {
    && Clear(t) && Solid(t) && |t| > 1
    && (|t| > |Decimal(size)| || exists i :: 0 <= i < |t| && !IsFigure(t[i]))
  }

  // ----- occurrences do not cross a barrier -----

  /** An occurrence across a character holds it. */
  lemma AcrossHolds(a: string, c: char, b: string, t: string, i: nat)
    ensures OccursAt(a + [c] + b, t, i) && i <= |a| < i + |t| ==> c in t
  {
    var s := a + [c] + b;
    if OccursAt(s, t, i) && i <= |a| < i + |t| {
      assert s[i..i + |t|][|a| - i] == s[|a|] == c;
    }
  }

  lemma AfterIt(a: string, c: char, b: string, t: string, i: nat)
    requires i > |a|
    ensures OccursAt(a + [c] + b, t, i) ==> OccursAt(b, t, i - |a| - 1)
  {
    var k := i - |a| - 1;
    if OccursAt(a + [c] + b, t, i) {
      assert b == (a + [c] + b)[|a| + 1..];
      assert b[k..k + |t|] == (a + [c] + b)[i..i + |t|];
    }
  }

  lemma BeforeIt(a: string, c: char, b: string, t: string, i: nat)
    ensures OccursAt(a + [c] + b, t, i) && i + |t| <= |a| ==> OccursAt(a, t, i)
  {
    if OccursAt(a + [c] + b, t, i) && i + |t| <= |a| {
      assert a[i..i + |t|] == (a + [c] + b)[i..i + |t|];
    }
  }

  lemma Barrier(a: string, c: char, b: string, t: string)
    requires c !in t && Contains(a + [c] + b, t) && t != ""
    ensures Contains(a, t) || Contains(b, t)
  {
    var i :| 0 <= i <= |a + [c] + b| && OccursAt(a + [c] + b, t, i);
    AcrossHolds(a, c, b, t, i);
    BeforeIt(a, c, b, t, i);
    if i > |a| {
      AfterIt(a, c, b, t, i);
    }
  }

  lemma ClearHasNo(t: string, c: char)
    requires Clear(t) && IsBarrier(c)
    ensures c !in t && t != ""
  {
  }

  lemma {:induction false} DecimalIsFigures(n: nat)
    ensures forall i :: 0 <= i < |Decimal(n)| ==> IsFigure(Decimal(n)[i])
  {
    if n >= 10 {
      DecimalIsFigures(n / 10);
    }
  }

  lemma FigureAt(s: string, t: string, i: nat, k: nat)
    requires (forall j :: 0 <= j < |s| ==> IsFigure(s[j])) && k < |t|
    ensures OccursAt(s, t, i) ==> IsFigure(t[k])
  {
    if OccursAt(s, t, i) {
      assert s[i..i + |t|][k] == s[i + k];
    }
  }

  lemma {:induction false} LongerNumbers(n: nat, size: nat)
    requires n <= size
    ensures |Decimal(n)| <= |Decimal(size)|
  {
    if n >= 10 {
      LongerNumbers(n / 10, size / 10);
    }
  }

  lemma NotInDecimal(n: nat, t: string, size: nat)
    requires Ordinary(t, size) && n <= size
    ensures !Contains(Decimal(n), t)
  {
    LongerNumbers(n, size);
    if |t| <= |Decimal(n)| {
      DecimalIsFigures(n);
      var k :| 0 <= k < |t| && !IsFigure(t[k]);
      forall i: nat ensures !OccursAt(Decimal(n), t, i) {
        FigureAt(Decimal(n), t, i, k);
      }
    }
  }

  /** A piece of the words every mask is made of. */
  predicate InWords(t: string) {
    Contains("chars", t) || Contains("redacted", t)
  }

  lemma MarkerIs(n: nat)
    ensures Marker(n) == ['['] + (Decimal(n) + [' '] + ("chars" + [' '] + ("redacted" + [']'])))
  {
    assert " chars redacted]" == [' '] + "chars" + [' '] + "redacted" + [']'];
  }

  /** What occurs in a text with a marker in it occurs before it, after it, or in it. */
  lemma MarkerSplits(a: string, n: nat, b: string, t: string)
    requires Clear(t) && Contains(a + Marker(n) + b, t)
    ensures Contains(a, t) || Contains(Marker(n), t) || Contains(b, t)
  {
    MarkerIs(n);
    ClearHasNo(t, '[');
    ClearHasNo(t, ']');
    var inner := Decimal(n) + [' '] + ("chars" + [' '] + "redacted");
    assert Marker(n) == ['['] + inner + [']'];
    assert a + Marker(n) + b == a + ['['] + (inner + [']'] + b);
    Barrier(a, '[', inner + [']'] + b, t);
    if !Contains(a, t) {
      Barrier(inner, ']', b, t);
      if Contains(inner, t) {
        InsideIsContained(['['], inner, [']'], t);
      }
    }
  }

  /** A word in a marker is one of its words. */
  lemma WordInMarker(n: nat, t: string, size: nat)
    requires Ordinary(t, size) && n <= size && Contains(Marker(n), t)
    ensures InWords(t)
  {
    MarkerIs(n);
    NotInDecimal(n, t, size);
    var none := t[..0];
    NothingInNothing(none, t);
    assert Marker(n) == none + ['['] + (Decimal(n) + [' '] + ("chars" + [' '] + ("redacted" + [']'] + none)));
    Barrier(none, '[', Decimal(n) + [' '] + ("chars" + [' '] + ("redacted" + [']'] + none)), t);
    Barrier(Decimal(n), ' ', "chars" + [' '] + ("redacted" + [']'] + none), t);
    Barrier("chars", ' ', "redacted" + [']'] + none, t);
    if !Contains("chars", t) {
      Barrier("redacted", ']', none, t);
    }
  }

  lemma NothingInNothing(s: string, t: string)
    requires |s| == 0 && |t| > 0
    ensures !Contains(s, t)
  {
  }

  lemma WordsAreInMarker(n: nat, t: string)
    requires InWords(t)
    ensures Contains(Marker(n), t)
  {
    MarkerIs(n);
    if Contains("chars", t) {
      InsideIsContained(['['] + Decimal(n) + [' '], "chars", [' '] + "redacted" + [']'], t);
      assert ['['] + Decimal(n) + [' '] + "chars" + ([' '] + "redacted" + [']']) == Marker(n);
    } else {
      InsideIsContained(['['] + Decimal(n) + [' '] + "chars" + [' '], "redacted", [']'], t);
      assert ['['] + Decimal(n) + [' '] + "chars" + [' '] + "redacted" + [']'] == Marker(n);
    }
  }

  // ----- masks -----

  /** What a mask reveals before its marker. */
  function Head(secret: string, p: Policy): string {
    secret[..if p.strategy == KeepSuffix then 0 else Revealable(|secret|, p)]
  }

  /** What a mask reveals after its marker. */
  function Tail(secret: string, p: Policy): string {
    secret[|secret| - (if p.strategy == KeepSuffix then Revealable(|secret|, p) else 0)..]
  }

  function Lead(head: string): string {
    if |head| == 0 then head else head + [DOTS]
  }

  function Trail(tail: string): string {
    if |tail| == 0 then tail else [DOTS] + tail
  }

  function Hidden(secret: string, p: Policy): nat {
    |secret| - Revealable(|secret|, p)
  }

  lemma MaskIs(secret: string, p: Policy)
    ensures MaskOf(secret, p) == Lead(Head(secret, p)) + Marker(Hidden(secret, p)) + Trail(Tail(secret, p))
    ensures |Head(secret, p)| == 0 || |Tail(secret, p)| == 0
  {
    var m, n := Marker(Hidden(secret, p)), Revealable(|secret|, p);
    assert ELLIPSIS == [DOTS];
    if n == 0 {
      Bare(Head(secret, p), m, Tail(secret, p));
    } else if p.strategy == KeepSuffix {
      Behind(Head(secret, p), m, secret[|secret| - n..]);
    } else {
      Before(secret[..n], m, Tail(secret, p));
    }
  }

  lemma Bare(h: string, m: string, w: string)
    requires |h| == 0 && |w| == 0
    ensures Lead(h) + m + Trail(w) == m
  {
  }

  lemma Behind(h: string, m: string, w: string)
    requires |h| == 0 && |w| > 0
    ensures Lead(h) + m + Trail(w) == m + [DOTS] + w
  {
  }

  lemma Before(h: string, m: string, w: string)
    requires |h| > 0 && |w| == 0
    ensures Lead(h) + m + Trail(w) == h + [DOTS] + m
  {
  }

  lemma MarkerEnds(n: nat)
    ensures |Marker(n)| > 0 && Marker(n)[0] == '[' && Marker(n)[|Marker(n)| - 1] == ']'
  {
    MarkerIs(n);
  }

  lemma BarrierBehindHead(h: string, m: string, w: string)
    requires |m| > 0 && IsBarrier(m[0])
    ensures var s := Lead(h) + m + Trail(w); h < s && IsBarrier(s[|h|])
  {
    assert Lead(h) + m + Trail(w) == h + ((if |h| == 0 then m else [DOTS] + m) + Trail(w));
  }

  /** A mask is what it reveals before a barrier, and what follows. */
  lemma MaskStarts(secret: string, p: Policy) returns (c: char, rest: string)
    ensures IsBarrier(c) && MaskOf(secret, p) == Head(secret, p) + [c] + rest
  {
    var mask, h := MaskOf(secret, p), Head(secret, p);
    MaskIs(secret, p);
    MarkerEnds(Hidden(secret, p));
    BarrierBehindHead(h, Marker(Hidden(secret, p)), Tail(secret, p));
    c, rest := mask[|h|], mask[|h| + 1..];
  }

  /** A mask is what precedes a barrier, and what it reveals behind it. */
  lemma MaskEnds(secret: string, p: Policy) returns (front: string, c: char)
    ensures IsBarrier(c) && MaskOf(secret, p) == front + [c] + Tail(secret, p)
  {
    MaskIs(secret, p);
    MarkerEnds(Hidden(secret, p));
    var before, w := Lead(Head(secret, p)) + Marker(Hidden(secret, p)), Tail(secret, p);
    if |w| == 0 {
      front, c := before[..|before| - 1], ']';
      assert before == front + [c];
      assert before + Trail(w) == before && front + [c] + w == front + [c];
    } else {
      front, c := before, DOTS;
      assert before + ([DOTS] + w) == before + [DOTS] + w;
    }
  }

  lemma NotInLead(a: string, head: string, t: string)
    requires Clear(t) && Contains(a + Lead(head), t)
    ensures Contains(a + head, t)
  {
    if |head| == 0 {
      assert a + head == a + Lead(head);
    } else {
      ClearHasNo(t, DOTS);
      var none := a[..0];
      assert a + Lead(head) == (a + head) + [DOTS] + none;
      Barrier(a + head, DOTS, none, t);
      NothingInNothing(none, t);
    }
  }

  lemma NotInTrail(tail: string, b: string, t: string)
    requires Clear(t) && Contains(Trail(tail) + b, t)
    ensures Contains(tail + b, t)
  {
    if |tail| == 0 {
      assert tail + b == Trail(tail) + b;
    } else {
      ClearHasNo(t, DOTS);
      var none := b[..0];
      assert Trail(tail) + b == none + [DOTS] + (tail + b);
      Barrier(none, DOTS, tail + b, t);
      NothingInNothing(none, t);
    }
  }

  lemma AroundMarker(a: string, lead: string, m: string, trail: string, b: string)
    ensures a + (lead + m + trail) + b == (a + lead) + m + (trail + b)
  {
  }

  /**
   What occurs in a text with a mask in it occurs up to what the mask reveals first, from what it
   reveals last, or in its marker.
   */
  lemma MaskSplits(a: string, secret: string, p: Policy, b: string, t: string)
    requires Clear(t) && Contains(a + MaskOf(secret, p) + b, t)
    ensures || Contains(a + Head(secret, p), t) || Contains(Marker(Hidden(secret, p)), t)
            || Contains(Tail(secret, p) + b, t)
  {
    var lead, trail := Lead(Head(secret, p)), Trail(Tail(secret, p));
    MaskIs(secret, p);
    AroundMarker(a, lead, Marker(Hidden(secret, p)), trail, b);
    MarkerSplits(a + lead, Hidden(secret, p), trail + b, t);
    if Contains(a + lead, t) {
      NotInLead(a, Head(secret, p), t);
    }
    if Contains(trail + b, t) {
      NotInTrail(Tail(secret, p), b, t);
    }
  }

  lemma MaskHoldsWords(secret: string, p: Policy, t: string)
    requires InWords(t)
    ensures Contains(MaskOf(secret, p), t)
  {
    MaskIs(secret, p);
    WordsAreInMarker(Hidden(secret, p), t);
    InsideIsContained(Lead(Head(secret, p)), Marker(Hidden(secret, p)), Trail(Tail(secret, p)), t);
  }

  /** A word that one mask does not hold is in no marker. */
  lemma UnmaskedIsUnmarked(secret: string, p: Policy, t: string, size: nat)
    requires Ordinary(t, size) && !Contains(MaskOf(secret, p), t)
    ensures Unmarked(t, size)
  {
    forall n: nat | n <= size ensures !Contains(Marker(n), t) {
      if Contains(Marker(n), t) {
        WordInMarker(n, t, size);
        MaskHoldsWords(secret, p, t);
      }
    }
  }

  lemma MaskHoldsMarker(secret: string, p: Policy, t: string)
    requires Contains(Marker(Hidden(secret, p)), t)
    ensures Contains(MaskOf(secret, p), t)
  {
    MaskIs(secret, p);
    InsideIsContained(Lead(Head(secret, p)), Marker(Hidden(secret, p)), Trail(Tail(secret, p)), t);
  }

  lemma MaskHoldsHead(secret: string, p: Policy, t: string)
    requires Contains(Head(secret, p), t)
    ensures Contains(MaskOf(secret, p), t)
  {
    var c, rest := MaskStarts(secret, p);
    InFirst(Head(secret, p), [c], t);
    InFirst(Head(secret, p) + [c], rest, t);
  }

  lemma MaskHoldsTail(secret: string, p: Policy, t: string)
    requires Contains(Tail(secret, p), t)
    ensures Contains(MaskOf(secret, p), t)
  {
    var front, c := MaskEnds(secret, p);
    InSecond(front + [c], Tail(secret, p), t);
  }

  // ----- replacing one text -----

  /** No copy of the text can start inside what its own mask reveals of its end. */
  predicate Untied(secret: string, p: Policy) {
    forall k :: 0 < k <= |Tail(secret, p)| ==> secret[|secret| - k..] != secret[..k]
  }

  lemma DefaultReveals(secret: string)
    ensures Head(secret, DefaultPolicy()) == "" && Tail(secret, DefaultPolicy()) == ""
    ensures Untied(secret, DefaultPolicy())
  {
  }

  /** An entry whose mask is that of its own text. */
  predicate Proper(e: (string, string), p: Policy, size: nat) {
    && 1 < |e.0| <= size
    && exists q :: q in {p, DefaultPolicy()} && Untied(e.0, q) && e.1 == MaskOf(e.0, q)
  }

  lemma PartOf(pre: string, s: string, mid: string, t: string)
    requires mid <= s && Contains(pre + mid, t)
    ensures Contains(pre + s, t)
  {
    assert pre + s == pre + mid + s[|mid|..];
    InFirst(pre + mid, s[|mid|..], t);
  }

  lemma RestOf(pre: string, s: string, n: nat, t: string)
    requires n <= |s| && Contains(s[n..], t)
    ensures Contains(pre + s, t)
  {
    assert pre + s == pre + s[..n] + s[n..];
    InSecond(pre + s[..n], s[n..], t);
  }

  /** Where no copy starts, replacing moves on by one character. */
  lemma StepsOver(pre: string, s: string, u: string, mask: string)
    requires 0 < |u| <= |s| && s[..|u|] != u
    ensures pre + s == pre + [s[0]] + s[1..]
    ensures pre + Replace(s, u, mask) == pre + [s[0]] + Replace(s[1..], u, mask)
  {
    assert pre + ([s[0]] + Replace(s[1..], u, mask)) == pre + [s[0]] + Replace(s[1..], u, mask);
  }

  /** What the mask of a copy reveals last, with what follows the copy, is the end of the text. */
  lemma TailIsThere(s: string, u: string, q: Policy)
    requires u <= s
    ensures |Tail(u, q)| <= |u| && Tail(u, q) + s[|u|..] == s[|u| - |Tail(u, q)|..]
  {
    assert s == u + s[|u|..];
  }

  lemma OtherStaysOut(pre: string, s: string, u: string, q: Policy, rest: string, t: string, size: nat)
    requires Unmarked(t, size) && |u| <= size && u <= s
    requires !Contains(pre + s, t) && !Contains(Tail(u, q) + rest, t)
    ensures !Contains(pre + (MaskOf(u, q) + rest), t)
  {
    assert pre + (MaskOf(u, q) + rest) == pre + MaskOf(u, q) + rest;
    if Contains(pre + MaskOf(u, q) + rest, t) {
      MaskSplits(pre, u, q, rest, t);
      PartOf(pre, s, Head(u, q), t);
    }
  }

  /** Replacing one text never brings another into being. */
  lemma {:induction false} ReplaceKeepsOut(pre: string, s: string, u: string, q: Policy, t: string, size: nat)
    requires Unmarked(t, size) && 0 < |u| <= size && !Contains(pre + s, t)
    ensures !Contains(pre + Replace(s, u, MaskOf(u, q)), t)
    decreases |s|
  {
    var mask := MaskOf(u, q);
    if |s| < |u| {
    } else if s[..|u|] == u {
      var rest, tail := s[|u|..], Tail(u, q);
      TailIsThere(s, u, q);
      if Contains(tail + rest, t) { RestOf(pre, s, |u| - |tail|, t); }
      ReplaceKeepsOut(tail, rest, u, q, t, size);
      OtherStaysOut(pre, s, u, q, Replace(rest, u, mask), t, size);
    } else {
      StepsOver(pre, s, u, mask);
      ReplaceKeepsOut(pre + [s[0]], s[1..], u, q, t, size);
    }
  }

  /** No occurrence of `t` in `s` starts before position `n`. */
  predicate NoneBefore(s: string, t: string, n: nat) {
    forall i :: 0 <= i < n ==> !OccursAt(s, t, i)
  }

  lemma StaysAt(s: string, part: string, t: string, i: nat)
    requires part <= s
    ensures OccursAt(part, t, i) ==> OccursAt(s, t, i)
  {
    if OccursAt(part, t, i) {
      assert s[i..i + |t|] == part[i..i + |t|];
    }
  }

  lemma NoneWithin(s: string, t: string, n: nat, part: string)
    requires NoneBefore(s, t, n) && part <= s && |part| < n + |t|
    ensures !Contains(part, t)
  {
    forall i: nat ensures !OccursAt(part, t, i) {
      StaysAt(s, part, t, i);
    }
  }

  lemma NoneOneOn(pre: string, s: string, t: string)
    requires NoneBefore(pre + s, t, |pre|) && |t| <= |s| && s[..|t|] != t && s != ""
    ensures NoneBefore(pre + [s[0]] + s[1..], t, |pre + [s[0]]|)
  {
    assert pre + s == pre + [s[0]] + s[1..];
    assert (pre + s)[|pre|..|pre| + |t|] == s[..|t|];
  }

  lemma MaskedStaysOut(pre: string, s: string, q: Policy, rest: string, t: string, size: nat)
    requires Unmarked(t, size) && |t| <= size && NoneBefore(pre + s, t, |pre|)
    requires t <= s && !Contains(Tail(t, q) + rest, t)
    ensures !Contains(pre + (MaskOf(t, q) + rest), t)
  {
    var h := Head(t, q);
    assert pre + (MaskOf(t, q) + rest) == pre + MaskOf(t, q) + rest;
    if Contains(pre + MaskOf(t, q) + rest, t) {
      MaskSplits(pre, t, q, rest, t);
      assert pre + h <= pre + s && |h| < |t|;
      NoneWithin(pre + s, t, |pre|, pre + h);
    }
  }

  lemma TiesAt(tail: string, rest: string, t: string, i: nat)
    requires i < |tail| <= |t| && tail == t[|t| - |tail|..]
    ensures OccursAt(tail + rest, t, i) ==> t[|t| - (|tail| - i)..] == t[..|tail| - i]
  {
    if OccursAt(tail + rest, t, i) {
      assert (tail + rest)[i..i + |t|][..|tail| - i] == tail[i..];
    }
  }

  lemma UntiedFromTail(rest: string, t: string, q: Policy)
    requires Untied(t, q)
    ensures NoneBefore(Tail(t, q) + rest, t, |Tail(t, q)|)
  {
    var tail := Tail(t, q);
    forall i: nat | i < |tail| ensures !OccursAt(tail + rest, t, i) {
      TiesAt(tail, rest, t, i);
    }
  }

  /** Replacing a text takes every copy of it out. */
  lemma {:induction false} ReplaceTakesOut(pre: string, s: string, q: Policy, t: string, size: nat)
    requires Unmarked(t, size) && |t| <= size && Untied(t, q) && NoneBefore(pre + s, t, |pre|)
    ensures !Contains(pre + Replace(s, t, MaskOf(t, q)), t)
    decreases |s|
  {
    var mask := MaskOf(t, q);
    if |s| < |t| {
      NoneWithin(pre + s, t, |pre|, pre + s);
    } else if s[..|t|] == t {
      var rest := s[|t|..];
      UntiedFromTail(rest, t, q);
      ReplaceTakesOut(Tail(t, q), rest, q, t, size);
      MaskedStaysOut(pre, s, q, Replace(rest, t, mask), t, size);
    } else {
      StepsOver(pre, s, t, mask);
      NoneOneOn(pre, s, t);
      ReplaceTakesOut(pre + [s[0]], s[1..], q, t, size);
    }
  }

  // ----- what stands beside the scrubbed text -----

  /** Nothing occurs in `s + z` that reaches into `z`. */
  ghost predicate Free(s: string, z: string, t: string) {
    forall i :: 0 <= i && |s| < i + |t| ==> !OccursAt(s + z, t, i)
  }

  lemma TailOccurs(pre: string, s: string, n: nat, z: string, t: string, i: nat)
    requires n <= |s|
    ensures OccursAt(s[n..] + z, t, i) ==> OccursAt(pre + s + z, t, |pre| + n + i)
  {
    var k := |pre| + n + i;
    if OccursAt(s[n..] + z, t, i) {
      assert pre + s + z == (pre + s[..n]) + (s[n..] + z);
      assert (pre + s + z)[k..k + |t|] == (s[n..] + z)[i..i + |t|];
    }
  }

  lemma FreeTail(pre: string, s: string, n: nat, z: string, t: string)
    requires n <= |s| && Free(pre + s, z, t)
    ensures Free(s[n..], z, t)
  {
    forall i: nat | |s[n..]| < i + |t| ensures !OccursAt(s[n..] + z, t, i) {
      TailOccurs(pre, s, n, z, t, i);
    }
  }

  /** A barrier in front keeps what follows free. */
  lemma FreeBehind(a: string, c: char, b: string, z: string, t: string)
    requires Free(b, z, t) && c !in t
    ensures Free(a + [c] + b, z, t)
  {
    var s := a + [c] + b;
    forall i: nat | |s| < i + |t| ensures !OccursAt(s + z, t, i) {
      assert s + z == a + [c] + (b + z);
      AcrossHolds(a, c, b + z, t, i);
      if i > |a| {
        AfterIt(a, c, b + z, t, i);
      }
    }
  }

  lemma MaskedStaysFree(pre: string, u: string, q: Policy, rest: string, z: string, t: string)
    requires Clear(t) && Free(Tail(u, q) + rest, z, t)
    ensures Free(pre + (MaskOf(u, q) + rest), z, t)
  {
    var front, c := MaskEnds(u, q);
    ClearHasNo(t, c);
    FreeBehind(pre + front, c, Tail(u, q) + rest, z, t);
    assert pre + (front + [c] + Tail(u, q) + rest) == pre + front + [c] + (Tail(u, q) + rest);
  }

  /** Replacing brings nothing into being that reaches past the end. */
  lemma {:induction false} ReplaceStaysFree(pre: string, s: string, u: string, q: Policy, z: string, t: string)
    requires Clear(t) && |u| > 0 && Free(pre + s, z, t)
    ensures Free(pre + Replace(s, u, MaskOf(u, q)), z, t)
    decreases |s|
  {
    var mask := MaskOf(u, q);
    if |s| < |u| {
    } else if s[..|u|] == u {
      var rest, tail := s[|u|..], Tail(u, q);
      TailIsThere(s, u, q);
      FreeTail(pre, s, |u| - |tail|, z, t);
      ReplaceStaysFree(tail, rest, u, q, z, t);
      MaskedStaysFree(pre, u, q, Replace(rest, u, mask), z, t);
    } else {
      StepsOver(pre, s, u, mask);
      ReplaceStaysFree(pre + [s[0]], s[1..], u, q, z, t);
    }
  }

  lemma StartOccurs(h: string, c: char, rest: string, s: string, t: string, i: nat)
    requires c !in t && i <= |h| && h <= s
    ensures OccursAt(h + [c] + rest, t, i) ==> OccursAt(s, t, i)
  {
    AcrossHolds(h, c, rest, t, i);
    BeforeIt(h, c, rest, t, i);
    StaysAt(s, h, t, i);
  }

  lemma MaskedStaysLeft(pre: string, s: string, u: string, q: Policy, rest: string, n: nat, t: string)
    requires Clear(t) && n <= |pre| && u <= s && NoneBefore(pre + s, t, n)
    ensures NoneBefore(pre + (MaskOf(u, q) + rest), t, n)
  {
    var c, more := MaskStarts(u, q);
    var h := pre + Head(u, q);
    ClearHasNo(t, c);
    assert pre + (Head(u, q) + [c] + more + rest) == h + [c] + (more + rest);
    forall i: nat | i < n ensures !OccursAt(pre + (MaskOf(u, q) + rest), t, i) {
      StartOccurs(h, c, more + rest, pre + s, t, i);
    }
  }

  /** Replacing brings nothing into being that starts before the replaced part. */
  lemma {:induction false} ReplaceStaysLeft(pre: string, s: string, u: string, q: Policy, n: nat, t: string)
    requires Clear(t) && |u| > 0 && n <= |pre| && NoneBefore(pre + s, t, n)
    ensures NoneBefore(pre + Replace(s, u, MaskOf(u, q)), t, n)
    decreases |s|
  {
    var mask := MaskOf(u, q);
    if |s| < |u| {
    } else if s[..|u|] == u {
      MaskedStaysLeft(pre, s, u, q, Replace(s[|u|..], u, mask), n, t);
    } else {
      StepsOver(pre, s, u, mask);
      ReplaceStaysLeft(pre + [s[0]], s[1..], u, q, n, t);
    }
  }

  // ----- the whole scrub -----

  lemma OneScrub(s: string, e: (string, string), p: Policy, t: string, size: nat)
    requires Proper(e, p, size) && Unmarked(t, size) && (e.0 == t || !Contains(s, t))
    ensures !Contains(Replace(s, e.0, e.1), t)
  {
    var q :| q in {p, DefaultPolicy()} && Untied(e.0, q) && e.1 == MaskOf(e.0, q);
    var none := s[..0];
    assert none + s == s && none + Replace(s, e.0, e.1) == Replace(s, e.0, e.1);
    if e.0 == t {
      ReplaceTakesOut(none, s, q, t, size);
    } else {
      ReplaceKeepsOut(none, s, e.0, q, t, size);
    }
  }

  lemma LastOf(rs: Replacements, t: string)
    requires Knows(rs, t)
    ensures rs != [] && rs[|rs| - 1] in rs && (rs[|rs| - 1].0 == t || Knows(rs[..|rs| - 1], t))
    ensures forall e :: e in rs[..|rs| - 1] ==> e in rs
  {
    var i :| 0 <= i < |rs| && rs[i].0 == t;
    assert i < |rs| - 1 ==> rs[..|rs| - 1][i].0 == t;
  }

  ghost predicate AllProper(rs: Replacements, p: Policy, size: nat) {
    forall e :: e in rs ==> Proper(e, p, size)
  }

  /** Every matched text in the list is scrubbed out of a fragment, whatever the others are replaced by. */
  lemma {:induction false} ScrubTakesOut(fragment: string, rs: Replacements, p: Policy, t: string, size: nat)
    requires AllProper(rs, p, size) && Knows(rs, t) && Unmarked(t, size)
    ensures !Contains(Scrubbed(fragment, rs), t)
  {
    var before, last := rs[..|rs| - 1], rs[|rs| - 1];
    LastOf(rs, t);
    if last.0 != t {
      ScrubTakesOut(fragment, before, p, t, size);
    }
    OneScrub(Scrubbed(fragment, before), last, p, t, size);
  }

  lemma OneScrubFree(s: string, e: (string, string), p: Policy, z: string, t: string, size: nat)
    requires Proper(e, p, size) && Clear(t) && Free(s, z, t)
    ensures Free(Replace(s, e.0, e.1), z, t)
  {
    var q :| q in {p, DefaultPolicy()} && Untied(e.0, q) && e.1 == MaskOf(e.0, q);
    var none := s[..0];
    assert none + s == s && none + Replace(s, e.0, e.1) == Replace(s, e.0, e.1);
    ReplaceStaysFree(none, s, e.0, q, z, t);
  }

  lemma {:induction false} ScrubStaysFree(fragment: string, rs: Replacements, p: Policy, z: string, t: string,
                                          size: nat)
    requires AllProper(rs, p, size) && Clear(t) && Free(fragment, z, t)
    ensures Free(Scrubbed(fragment, rs), z, t)
  {
    if rs != [] {
      var before, last := rs[..|rs| - 1], rs[|rs| - 1];
      assert last in rs && rs == before + [last];
      ScrubStaysFree(fragment, before, p, z, t, size);
      OneScrubFree(Scrubbed(fragment, before), last, p, z, t, size);
    }
  }

  lemma OneScrubLeft(w: string, s: string, e: (string, string), p: Policy, t: string, size: nat)
    requires Proper(e, p, size) && Clear(t) && NoneBefore(w + s, t, |w|)
    ensures NoneBefore(w + Replace(s, e.0, e.1), t, |w|)
  {
    var q :| q in {p, DefaultPolicy()} && Untied(e.0, q) && e.1 == MaskOf(e.0, q);
    ReplaceStaysLeft(w, s, e.0, q, |w|, t);
  }

  lemma {:induction false} ScrubStaysLeft(w: string, fragment: string, rs: Replacements, p: Policy, t: string,
                                          size: nat)
    requires AllProper(rs, p, size) && Clear(t) && NoneBefore(w + fragment, t, |w|)
    ensures NoneBefore(w + Scrubbed(fragment, rs), t, |w|)
  {
    if rs != [] {
      var before, last := rs[..|rs| - 1], rs[|rs| - 1];
      assert last in rs && rs == before + [last];
      ScrubStaysLeft(w, fragment, before, p, t, size);
      OneScrubLeft(w, Scrubbed(fragment, before), last, p, t, size);
    }
  }

  lemma FrontOccurs(s: string, z: string, t: string, i: nat)
    ensures OccursAt(s + z, t, i) && i + |t| <= |s| ==> OccursAt(s, t, i)
  {
    if OccursAt(s + z, t, i) && i + |t| <= |s| {
      assert s[i..i + |t|] == (s + z)[i..i + |t|];
    }
  }

  lemma BackOccurs(a: string, z: string, t: string, i: nat)
    requires i >= |a|
    ensures OccursAt(a + z, t, i) ==> OccursAt(z, t, i - |a|)
  {
    if OccursAt(a + z, t, i) {
      assert z[i - |a|..i - |a| + |t|] == (a + z)[i..i + |t|];
    }
  }

  lemma FreeIsOut(s: string, z: string, t: string)
    requires !Contains(s, t) && Free(s, z, t)
    ensures !Contains(s + z, t)
  {
    forall i: nat ensures !OccursAt(s + z, t, i) {
      FrontOccurs(s, z, t, i);
      assert OccursAt(s, t, i) ==> Contains(s, t);
    }
  }

  lemma LeftIsOut(w: string, s: string, t: string)
    requires NoneBefore(w + s, t, |w|) && !Contains(s, t)
    ensures !Contains(w + s, t)
  {
    forall i: nat ensures !OccursAt(w + s, t, i) {
      if i >= |w| {
        BackOccurs(w, s, t, i);
        assert OccursAt(s, t, i - |w|) ==> Contains(s, t);
      }
    }
  }

  // ----- the collapse -----

  predicate EndsWith(s: string, y: string) {
    |y| <= |s| && s[|s| - |y|..] == y
  }

  lemma DropLast(c: string, y: string)
    requires |y| > 0 && EndsWith(c, y)
    ensures c[|c| - 1] == y[|y| - 1] && EndsWith(c[..|c| - 1], y[..|y| - 1])
  {
    assert c[|c| - |y|..][|y| - 1] == c[|c| - 1];
    assert c[..|c| - 1][|c| - |y|..] == c[|c| - |y|..][..|y| - 1];
  }

  lemma AddLast(s: string, y: string)
    requires |y| > 0 && |s| > 0 && s[|s| - 1] == y[|y| - 1] && EndsWith(s[..|s| - 1], y[..|y| - 1])
    ensures EndsWith(s, y)
  {
    assert s[|s| - |y|..] == s[..|s| - 1][|s| - |y|..] + [s[|s| - 1]];
    assert y == y[..|y| - 1] + [y[|y| - 1]];
  }

  /** A last character that is no white space is the last one collapsed. */
  lemma LastIsKept(s: string)
    requires |Collapsed(s)| > 0 && !IsSpace(Collapsed(s)[|Collapsed(s)| - 1])
    ensures |s| > 0 && Collapsed(s) == Collapsed(s[..|s| - 1]) + [s[|s| - 1]]
  {
    CollapsedHasNoRuns(s);
  }

  /** A tail without white space was there before the collapse. */
  lemma {:induction false} CollapsedEnds(s: string, y: string)
    requires Solid(y) && EndsWith(Collapsed(s), y)
    ensures EndsWith(s, y)
  {
    if |y| > 0 {
      DropLast(Collapsed(s), y);
      LastIsKept(s);
      assert Collapsed(s)[..|Collapsed(s)| - 1] == Collapsed(s[..|s| - 1]);
      CollapsedEnds(s[..|s| - 1], y[..|y| - 1]);
      AddLast(s, y);
    }
  }

  lemma SolidParts(t: string, i: nat)
    requires Solid(t) && i <= |t|
    ensures Solid(t[..i]) && Solid(t[i..])
  {
  }

  /** An occurrence after the collapse was there before it. */
  lemma BeforeCollapse(s: string, z: string, t: string, i: nat)
    requires Solid(t) && t != "" && OccursAt(Collapsed(s) + z, t, i)
    ensures Contains(s + z, t)
  {
    var c := Collapsed(s);
    if i >= |c| {
      var k := i - |c|;
      assert z[k..k + |t|] == (c + z)[i..i + |t|];
      assert OccursAt(z, t, k);
      InSecond(s, z, t);
    } else if i + |t| >= |c| {
      AcrossEnd(c, z, t, i);
      SolidParts(t, |c| - i);
      CollapsedEnds(s, t[..|c| - i]);
      CrossesAlike(s, c, z, t, i);
    } else {
      FrontOccurs(c, z, t, i);
      InsideCollapsed(s, t, i);
      InFirst(s, z, t);
    }
  }

  lemma AcrossEnd(c: string, z: string, t: string, i: nat)
    requires i < |c| <= i + |t| && OccursAt(c + z, t, i)
    ensures EndsWith(c, t[..|c| - i])
  {
    assert c[i..] == (c + z)[i..i + |t|][..|c| - i];
  }

  /** The collapse brings no solid text into being, neither inside nor across the end. */
  lemma CollapseKeepsOut(s: string, z: string, t: string)
    requires Solid(t) && t != "" && !Contains(s + z, t)
    ensures !Contains(Collapsed(s) + z, t)
  {
    if Contains(Collapsed(s) + z, t) {
      var i :| 0 <= i <= |Collapsed(s) + z| && OccursAt(Collapsed(s) + z, t, i);
      BeforeCollapse(s, z, t, i);
    }
  }

  lemma CrossesAlike(s: string, c: string, z: string, t: string, i: nat)
    requires i <= |c| <= i + |t| && OccursAt(c + z, t, i) && EndsWith(s, t[..|c| - i])
    ensures Contains(s + z, t)
  {
    var n := |c| - i;
    var k := |s| - n;
    RestIsNext(c, z, t, i);
    JoinedOccurs(s, z, t, n);
    assert OccursAt(s + z, t, k);
  }

  lemma RestIsNext(c: string, z: string, t: string, i: nat)
    requires i <= |c| <= i + |t| && OccursAt(c + z, t, i)
    ensures t[|c| - i..] <= z
  {
    var m := i + |t| - |c|;
    assert z[..m] == (c + z)[i..i + |t|][|c| - i..];
  }

  lemma JoinedOccurs(s: string, z: string, t: string, n: nat)
    requires n <= |t| && EndsWith(s, t[..n]) && t[n..] <= z
    ensures OccursAt(s + z, t, |s| - n)
  {
    var k := |s| - n;
    assert (s + z)[k..k + |t|] == s[k..] + z[..|t| - n];
    assert t == t[..n] + t[n..];
  }

  lemma {:induction false} InsideCollapsed(s: string, t: string, i: nat)
    requires Solid(t) && t != "" && OccursAt(Collapsed(s), t, i)
    ensures Contains(s, t)
  {
    var c := Collapsed(s);
    var init := s[..|s| - 1];
    if i + |t| == |c| {
      assert EndsWith(c, t);
      CollapsedEnds(s, t);
      assert OccursAt(s, t, |s| - |t|);
    } else {
      assert OccursAt(Collapsed(init), t, i) by {
        assert Collapsed(init)[i..i + |t|] == c[i..i + |t|];
      }
      InsideCollapsed(init, t, i);
      assert s == init + [s[|s| - 1]];
      InFirst(init, [s[|s| - 1]], t);
    }
  }

  /** A beginning without white space was there before the collapse. */
  lemma {:induction false} CollapsedStarts(s: string, y: string)
    requires Solid(y) && y <= Collapsed(s)
    ensures y <= s
  {
    if |y| > 0 {
      var c, init := Collapsed(s), s[..|s| - 1];
      if y <= Collapsed(init) {
        CollapsedStarts(init, y);
        assert init <= s;
      } else {
        WholeIsKept(s, y);
      }
    }
  }

  /** The whole of a collapsed text has no white space only if there was none. */
  lemma WholeIsKept(s: string, y: string)
    requires Solid(y) && |y| > 0 && |s| > 0 && y <= Collapsed(s) && !(y <= Collapsed(s[..|s| - 1]))
    ensures y <= s
  {
    LongerByOne(s);
    assert y == Collapsed(s);
    NoLonger(s, y);
  }

  lemma LongerByOne(s: string)
    requires |s| > 0
    ensures var c, d := Collapsed(s), Collapsed(s[..|s| - 1]);
            c == d || (|c| == |d| + 1 && c[..|d|] == d)
  {
  }

  lemma {:induction false} NoLonger(s: string, y: string)
    requires Solid(y) && Collapsed(s) == y
    ensures s == y
  {
    if |s| > 0 {
      CollapsedHasNoRuns(s);
      LastIsKept(s);
      NoLonger(s[..|s| - 1], y[..|y| - 1]);
      assert s == s[..|s| - 1] + [s[|s| - 1]] && y == y[..|y| - 1] + [y[|y| - 1]];
    }
  }

  lemma CrossesLeft(w: string, c: string, s: string, t: string, i: nat)
    requires i <= |w| <= i + |t| && OccursAt(w + c, t, i) && t[|w| - i..] <= s
    ensures OccursAt(w + s, t, i)
  {
    var n := |w| - i;
    assert (w + c)[i..i + |t|][..n] == w[i..];
    assert t == t[..n] + t[n..];
    assert (w + s)[i..i + |t|] == w[i..] + s[..|t| - n];
  }

  /** The collapse brings no solid text into being behind what precedes it. */
  lemma CollapseKeepsOutBehind(w: string, s: string, t: string)
    requires Solid(t) && t != "" && !Contains(w + s, t)
    ensures !Contains(w + Collapsed(s), t)
  {
    var c := Collapsed(s);
    forall i: nat ensures !OccursAt(w + c, t, i) {
      if OccursAt(w + c, t, i) {
        if i >= |w| {
          BackOccurs(w, c, t, i);
          InsideCollapsed(s, t, i - |w|);
          InSecond(w, s, t);
        } else if i + |t| <= |w| {
          FrontOccurs(w, c, t, i);
          assert Contains(w, t);
          InFirst(w, s, t);
        } else {
          RestIsNext(w, c, t, i);
          SolidParts(t, |w| - i);
          CollapsedStarts(s, t[|w| - i..]);
          CrossesLeft(w, c, s, t, i);
          assert Contains(w + s, t);
        }
      }
    }
  }
}
