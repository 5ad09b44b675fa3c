/**
 From a laid out snippet to the text that is stored: masks, the scrub of repeated secrets, the
 collapse of white space, and the final refusal of a text that still holds a matched secret.
 */
module Rendering {
  import opened Basics
  import opened Spans
  import opened Sorting
  import opened Redaction

  const MAX_SNIPPET_CHARS: nat := 300

  // ----- masks -----

  datatype Strategy = Full | KeepPrefix | KeepSuffix

  datatype Policy = Policy(strategy: Strategy, keep: int, contextChars: nat, minLengthToReveal: int)

  /** What neighbours are masked with: nothing is revealed. */
  function DefaultPolicy(): Policy {
    Policy(Full, 4, 48, 16)
  }

  /** Never more than a third, and nothing of a short secret. */
  function Revealable(length: nat, p: Policy): (n: nat)
    ensures 3 * n <= length
  {
    if p.strategy == Full || length < p.minLengthToReveal then 0 else Max(0, Min(p.keep, length / 3))
  }

  function Decimal(n: nat): string {
    if n < 10 then ["0123456789"[n]] else Decimal(n / 10) + ["0123456789"[n % 10]]
  }

  const ELLIPSIS: string := "\U{2026}"

  function Marker(hidden: nat): string {
    "[" + Decimal(hidden) + " chars redacted]"
  }

  function MaskOf(secret: string, p: Policy): string {
    var revealed := Revealable(|secret|, p);
    var marker := Marker(|secret| - revealed);
    if revealed == 0 then marker
    else if p.strategy == KeepSuffix then marker + ELLIPSIS + secret[|secret| - revealed..]
    else secret[..revealed] + ELLIPSIS + marker
  }

  /** The target is masked as its rule says, everything else by the default. */
  function MaskText(text: string, s: Span, target: Span, p: Policy): string {
    if s.end > |text| then "" else MaskOf(TextOf(text, s), if s == target then p else DefaultPolicy())
  }

  // ----- what is scrubbed out of the context -----

  type Replacements = seq<(string, string)>

  predicate Knows(rs: Replacements, secret: string) {
    exists i :: 0 <= i < |rs| && rs[i].0 == secret
  }

  /** The first mask for a text wins. */
  function SetDefault(rs: Replacements, secret: string, mask: string): Replacements {
    if Knows(rs, secret) then rs else rs + [(secret, mask)]
  }

  function FromPlan(text: string, plan: seq<Span>, target: Span, p: Policy): Replacements {
    if plan == [] then []
    else
      var last := plan[|plan| - 1];
      var rest := FromPlan(text, plan[..|plan| - 1], target, p);
      if last.end > |text| then rest else SetDefault(rest, TextOf(text, last), MaskText(text, last, target, p))
  }

  function WithOthers(rs: Replacements, text: string, others: seq<Span>): Replacements {
    if others == [] then rs
    else
      var last := others[|others| - 1];
      var rest := WithOthers(rs, text, others[..|others| - 1]);
      if last.end > |text| then rest
      else SetDefault(rest, TextOf(text, last), MaskOf(TextOf(text, last), DefaultPolicy()))
  }

  predicate LongerKey(a: (string, string), b: (string, string)) {
    |a.0| > |b.0|
  }

  function LongOnes(rs: Replacements): Replacements {
    if rs == [] then []
    else LongOnes(rs[..|rs| - 1]) + if |rs[|rs| - 1].0| > 1 then [rs[|rs| - 1]] else []
  }

  /** Longest first, so that a secret containing another is replaced as a whole. */
  function ReplacementsFor(text: string, plan: seq<Span>, others: seq<Span>, target: Span, p: Policy): Replacements {
    LongOnes(SortBy(WithOthers(FromPlan(text, plan, target, p), text, others), LongerKey))
  }

  /** Record the masks of the plan, the first for a text winning. */
  method RecordPlan(text: string, plan: seq<Span>, target: Span, p: Policy) returns (rs: Replacements)
    requires forall s :: s in plan ==> s.end <= |text|
    ensures rs == FromPlan(text, plan, target, p)
  {
    rs := [];
    for n := 0 to |plan|
      invariant rs == FromPlan(text, plan[..n], target, p)
    {
      assert plan[..n + 1][..n] == plan[..n] && plan[n] in plan;
      rs := SetDefault(rs, TextOf(text, plan[n]), MaskText(text, plan[n], target, p));
    }
    assert plan[..|plan|] == plan;
  }

  /** Give every other match that has no mask yet the default one. */
  method RecordOthers(planned: Replacements, text: string, others: seq<Span>) returns (rs: Replacements)
    requires forall s :: s in others ==> s.end <= |text|
    ensures rs == WithOthers(planned, text, others)
  {
    rs := planned;
    for n := 0 to |others|
      invariant rs == WithOthers(planned, text, others[..n])
    {
      assert others[..n + 1][..n] == others[..n] && others[n] in others;
      var secret := TextOf(text, others[n]);
      if !Knows(rs, secret) {
        rs := rs + [(secret, MaskOf(secret, DefaultPolicy()))];
      }
    }
    assert others[..|others|] == others;
  }

  method BuildReplacements(text: string, plan: seq<Span>, others: seq<Span>, target: Span, p: Policy)
    returns (rs: Replacements)
    requires (forall s :: s in plan ==> s.end <= |text|) && forall s :: s in others ==> s.end <= |text|
    ensures rs == ReplacementsFor(text, plan, others, target, p)
    ensures OncePerText(rs) && LongestFirst(rs)
    ensures forall t :: Knows(rs, t) <==> IsMatchedText(text, plan + others, t)
  {
    rs := RecordPlan(text, plan, target, p);
    rs := RecordOthers(rs, text, others);
    rs := LongOnes(SortBy(rs, LongerKey));
    ReplacementsAre(text, plan, others, target, p);
  }

  // ----- what the list holds -----

  predicate OncePerText(rs: Replacements) {
    forall i, j :: 0 <= i < j < |rs| ==> rs[i].0 != rs[j].0
  }

  predicate LongestFirst(rs: Replacements) {
    forall i, j :: 0 <= i < j < |rs| ==> |rs[i].0| >= |rs[j].0|
  }

  /** Each entry's mask is the default one for its text, or the one the rule asks for the target's text. */
  predicate MasksAs(rs: Replacements, own: string, p: Policy) {
    forall e :: e in rs ==> e.1 == MaskOf(e.0, DefaultPolicy()) || (e.0 == own && e.1 == MaskOf(own, p))
  }

  /** `t` is the text of one of the spans. */
  ghost predicate IsTextOf(text: string, spans: seq<Span>, t: string) {
    exists j :: 0 <= j < |spans| && spans[j].end <= |text| && t == TextOf(text, spans[j])
  }

  lemma IsTextOfLast(text: string, spans: seq<Span>, t: string)
    requires spans != [] && spans[|spans| - 1].end <= |text|
    ensures IsTextOf(text, spans, t) <==>
            IsTextOf(text, spans[..|spans| - 1], t) || t == TextOf(text, spans[|spans| - 1])
  {
    var n := |spans| - 1;
    var before: seq<Span> := spans[..n];
    if IsTextOf(text, before, t) {
      var j :| 0 <= j < |before| && before[j].end <= |text| && t == TextOf(text, before[j]);
      assert spans[j] == before[j];
    }
    if IsTextOf(text, spans, t) {
      var j :| 0 <= j < |spans| && spans[j].end <= |text| && t == TextOf(text, spans[j]);
      assert j < n ==> before[j] == spans[j];
    }
  }

  lemma SetDefaultIs(rs: Replacements, secret: string, mask: string)
    requires OncePerText(rs)
    ensures OncePerText(SetDefault(rs, secret, mask))
    ensures forall t :: Knows(SetDefault(rs, secret, mask), t) <==> Knows(rs, t) || t == secret
  {
    var after := SetDefault(rs, secret, mask);
    if !Knows(rs, secret) {
      assert after[|rs|].0 == secret;
      forall t | Knows(rs, t) ensures Knows(after, t) {
        var i :| 0 <= i < |rs| && rs[i].0 == t;
        assert after[i].0 == t;
      }
    }
  }

  lemma {:induction false} FromPlanIs(text: string, plan: seq<Span>, target: Span, p: Policy, own: string)
    requires (target.end <= |text| ==> own == TextOf(text, target)) && forall s :: s in plan ==> s.end <= |text|
    ensures var rs := FromPlan(text, plan, target, p);
            && OncePerText(rs) && MasksAs(rs, own, p)
            && forall t :: Knows(rs, t) <==> IsTextOf(text, plan, t)
  {
    if plan != [] {
      var last := plan[|plan| - 1];
      assert last in plan;
      FromPlanIs(text, plan[..|plan| - 1], target, p, own);
      SetDefaultIs(FromPlan(text, plan[..|plan| - 1], target, p), TextOf(text, last), MaskText(text, last, target, p));
      forall t ensures IsTextOf(text, plan, t) <==> IsTextOf(text, plan[..|plan| - 1], t) || t == TextOf(text, last) {
        IsTextOfLast(text, plan, t);
      }
    }
  }

  lemma {:induction false} WithOthersIs(rs: Replacements, text: string, others: seq<Span>, own: string, p: Policy)
    requires OncePerText(rs) && MasksAs(rs, own, p) && forall s :: s in others ==> s.end <= |text|
    ensures var all := WithOthers(rs, text, others);
            && OncePerText(all) && MasksAs(all, own, p)
            && forall t :: Knows(all, t) <==> Knows(rs, t) || IsTextOf(text, others, t)
  {
    if others != [] {
      var last := others[|others| - 1];
      assert last in others;
      WithOthersIs(rs, text, others[..|others| - 1], own, p);
      SetDefaultIs(WithOthers(rs, text, others[..|others| - 1]), TextOf(text, last),
                   MaskOf(TextOf(text, last), DefaultPolicy()));
      forall t
        ensures IsTextOf(text, others, t) <==> IsTextOf(text, others[..|others| - 1], t) || t == TextOf(text, last)
      {
        IsTextOfLast(text, others, t);
      }
    }
  }

  lemma LongerKeyOrders()
    ensures KeyOrder(LongerKey)
  {
  }

  lemma {:induction false} LongOnesArePart(rs: Replacements)
    ensures forall e :: e in LongOnes(rs) ==> e in rs && |e.0| > 1
  {
    if rs != [] {
      LongOnesArePart(rs[..|rs| - 1]);
      assert rs == rs[..|rs| - 1] + [rs[|rs| - 1]];
    }
  }

  lemma {:induction false} LongOnesKnow(rs: Replacements, t: string)
    ensures Knows(LongOnes(rs), t) <==> Knows(rs, t) && |t| > 1
  {
    if rs != [] {
      var before, last := rs[..|rs| - 1], rs[|rs| - 1];
      LongOnesKnow(before, t);
      assert before + [last] == rs;
      KnowsAppended(before, last, t);
      KnowsAppended(LongOnes(before), last, t);
      assert |last.0| <= 1 ==> LongOnes(before) + [] == LongOnes(before);
    }
  }

  lemma {:induction false} LongOnesInOrder(rs: Replacements)
    requires OncePerText(rs) && LongestFirst(rs)
    ensures OncePerText(LongOnes(rs)) && LongestFirst(LongOnes(rs))
  {
    if rs != [] {
      var before, last := rs[..|rs| - 1], rs[|rs| - 1];
      LongOnesInOrder(before);
      LongOnesArePart(before);
      PartsPrecede(rs, LongOnes(before));
      AppendedInOrder(LongOnes(before), last);
    }
  }

  /** `last` may follow these entries. */
  predicate Precede(rs: Replacements, last: (string, string)) {
    forall i :: 0 <= i < |rs| ==> rs[i].0 != last.0 && |rs[i].0| >= |last.0|
  }

  lemma PartsPrecede(rs: Replacements, part: Replacements)
    requires rs != [] && OncePerText(rs) && LongestFirst(rs) && forall e :: e in part ==> e in rs[..|rs| - 1]
    ensures Precede(part, rs[|rs| - 1])
  {
    forall i | 0 <= i < |part| ensures part[i].0 != rs[|rs| - 1].0 && |part[i].0| >= |rs[|rs| - 1].0| {
      assert part[i] in part;
      var j :| 0 <= j < |rs| - 1 && rs[..|rs| - 1][j] == part[i];
      assert rs[j] == part[i];
    }
  }

  lemma AppendedInOrder(rs: Replacements, last: (string, string))
    requires OncePerText(rs) && LongestFirst(rs) && Precede(rs, last)
    ensures OncePerText(rs + [last]) && LongestFirst(rs + [last])
  {
  }

  lemma KnowsAppended(rs: Replacements, last: (string, string), t: string)
    ensures Knows(rs + [last], t) <==> Knows(rs, t) || t == last.0
  {
    var all := rs + [last];
    assert all[|rs|] == last;
    if Knows(rs, t) {
      var i :| 0 <= i < |rs| && rs[i].0 == t;
      assert all[i].0 == t;
    }
  }

  lemma SortedKnows(rs: Replacements, own: string, p: Policy)
    requires OncePerText(rs) && MasksAs(rs, own, p)
    ensures var sorted := SortBy(rs, LongerKey);
            && OncePerText(sorted) && LongestFirst(sorted) && MasksAs(sorted, own, p)
            && forall t :: Knows(sorted, t) <==> Knows(rs, t)
  {
    var sorted := SortBy(rs, LongerKey);
    LongerKeyOrders();
    SortByOrders(rs, LongerKey);
    SortByLength(rs, LongerKey);
    StaysOncePerText(rs, sorted);
    forall i, j | 0 <= i < j < |sorted| ensures |sorted[i].0| >= |sorted[j].0| {
      assert !LongerKey(sorted[j], sorted[i]);
    }
    forall t ensures Knows(sorted, t) <==> Knows(rs, t) {
      if Knows(rs, t) {
        var k :| 0 <= k < |rs| && rs[k].0 == t;
        assert rs[k] in sorted;
        var i :| 0 <= i < |sorted| && sorted[i] == rs[k];
      }
      if Knows(sorted, t) {
        var i :| 0 <= i < |sorted| && sorted[i].0 == t;
        assert sorted[i] in rs;
        var k :| 0 <= k < |rs| && rs[k] == sorted[i];
      }
    }
  }

  /** Distinct texts stay distinct in any order. */
  lemma StaysOncePerText(rs: Replacements, sorted: Replacements)
    requires OncePerText(rs) && multiset(sorted) == multiset(rs)
    ensures OncePerText(sorted)
  {
    forall i, j | 0 <= i < j < |sorted| ensures sorted[i].0 != sorted[j].0 {
      assert sorted[i] in multiset(rs) && sorted[j] in multiset(rs);
      var a :| 0 <= a < |rs| && rs[a] == sorted[i];
      var b :| 0 <= b < |rs| && rs[b] == sorted[j];
      if a == b {
        TwiceInSorted(sorted, i, j);
        OnceInRs(rs, a);
      }
    }
  }

  lemma TwiceInSorted(sorted: Replacements, i: nat, j: nat)
    requires i < j < |sorted| && sorted[i] == sorted[j]
    ensures multiset(sorted)[sorted[i]] >= 2
  {
    assert sorted == sorted[..j] + [sorted[j]] + sorted[j + 1..];
    assert sorted[..j][i] in multiset(sorted[..j]);
  }

  lemma OnceInRs(rs: Replacements, a: nat)
    requires OncePerText(rs) && a < |rs|
    ensures multiset(rs)[rs[a]] == 1
  {
    var before, after := rs[..a], rs[a + 1..];
    assert rs == before + [rs[a]] + after;
    assert forall i :: 0 <= i < |before| ==> before[i] == rs[i] && before[i].0 != rs[a].0;
    assert forall i :: 0 <= i < |after| ==> after[i] == rs[a + 1 + i] && after[i].0 != rs[a].0;
    assert rs[a] !in multiset(before) && rs[a] !in multiset(after);
  }

  /**
   The list to scrub with: longest first, one entry per text, exactly the matched texts longer than
   a character, each with the default mask or, for the target's text, possibly the rule's.
   */
  lemma ReplacementsAre(text: string, plan: seq<Span>, others: seq<Span>, target: Span, p: Policy)
    requires (forall s :: s in plan ==> s.end <= |text|) && forall s :: s in others ==> s.end <= |text|
    ensures var rs := ReplacementsFor(text, plan, others, target, p);
            && OncePerText(rs) && LongestFirst(rs)
            && (target.end <= |text| ==> MasksAs(rs, TextOf(text, target), p))
            && forall t :: Knows(rs, t) <==> IsMatchedText(text, plan + others, t)
  {
    var own := if target.end <= |text| then TextOf(text, target) else "";
    var planned := FromPlan(text, plan, target, p);
    var all := WithOthers(planned, text, others);
    FromPlanIs(text, plan, target, p, own);
    WithOthersIs(planned, text, others, own, p);
    SortedKnows(all, own, p);
    LongOnesInOrder(SortBy(all, LongerKey));
    LongOnesArePart(SortBy(all, LongerKey));
    forall t
      ensures Knows(ReplacementsFor(text, plan, others, target, p), t) <==> IsMatchedText(text, plan + others, t)
    {
      LongOnesKnow(SortBy(all, LongerKey), t);
      TextOfEither(text, plan, others, t);
    }
  }

  lemma TextOfEither(text: string, a: seq<Span>, b: seq<Span>, t: string)
    ensures IsMatchedText(text, a + b, t) <==> |t| > 1 && (IsTextOf(text, a, t) || IsTextOf(text, b, t))
  {
    var all := a + b;
    if IsTextOf(text, a, t) {
      var j :| 0 <= j < |a| && a[j].end <= |text| && t == TextOf(text, a[j]);
      assert all[j] == a[j];
    }
    if IsTextOf(text, b, t) {
      var j :| 0 <= j < |b| && b[j].end <= |text| && t == TextOf(text, b[j]);
      assert all[|a| + j] == b[j];
    }
    if IsMatchedText(text, all, t) {
      var j :| 0 <= j < |all| && all[j].end <= |text| && t == TextOf(text, all[j]);
      assert if j < |a| then all[j] == a[j] else all[j] == b[j - |a|];
    }
  }

  // ----- context -----

  /** Every occurrence from the left, none overlapping the one before. */
  function Replace(s: string, secret: string, mask: string): string {
    if secret == "" || |s| < |secret| then s
    else if s[..|secret|] == secret then mask + Replace(s[|secret|..], secret, mask)
    else [s[0]] + Replace(s[1..], secret, mask)
  }

  function Scrubbed(s: string, rs: Replacements): string {
    if rs == [] then s
    else Replace(Scrubbed(s, rs[..|rs| - 1]), rs[|rs| - 1].0, rs[|rs| - 1].1)
  }

  /** The characters the pattern `\s` stands for. */
  predicate IsSpace(c: char) {
    var code := c as int;
    || 9 <= code <= 13 || 28 <= code <= 32 || code == 0x85 || code == 0xA0 || code == 0x1680
    || 0x2000 <= code <= 0x200A || code == 0x2028 || code == 0x2029 || code == 0x202F
    || code == 0x205F || code == 0x3000
  }

  function Collapsed(s: string): string {
    if s == "" then ""
    else if !IsSpace(s[|s| - 1]) then Collapsed(s[..|s| - 1]) + [s[|s| - 1]]
    else if |s| > 1 && IsSpace(s[|s| - 2]) then Collapsed(s[..|s| - 1])
    else Collapsed(s[..|s| - 1]) + " "
  }

  /** White space only as single blanks. */
  predicate NoRuns(s: string) {
    forall i :: 0 <= i < |s| && IsSpace(s[i]) ==> s[i] == ' ' && (i + 1 < |s| ==> !IsSpace(s[i + 1]))
  }

  lemma {:induction false} CollapsedHasNoRuns(s: string)
    ensures NoRuns(Collapsed(s))
    ensures s != "" ==> Collapsed(s) != "" && (IsSpace(Collapsed(s)[|Collapsed(s)| - 1]) <==> IsSpace(s[|s| - 1]))
  {
    if s != "" {
      CollapsedHasNoRuns(s[..|s| - 1]);
    }
  }

  function ContextText(fragment: string, rs: Replacements): string {
    Collapsed(Scrubbed(fragment, rs))
  }

  method RenderContext(fragment: string, rs: Replacements) returns (s: string)
    ensures s == ContextText(fragment, rs) && NoRuns(s)
  {
    s := fragment;
    for n := 0 to |rs|
      invariant s == Scrubbed(fragment, rs[..n])
    {
      assert rs[..n + 1][..n] == rs[..n];
      s := Replace(s, rs[n].0, rs[n].1);
    }
    assert rs[..|rs|] == rs;
    CollapsedHasNoRuns(s);
    s := Collapsed(s);
  }

  // ----- the snippet -----

  function PieceText(text: string, part: Part, target: Span, p: Policy, rs: Replacements): string {
    if part.Mask? then MaskText(text, part.span, target, p)
    else if part.span.end > |text| then ""
    else ContextText(TextOf(text, part.span), rs)
  }

  function Body(text: string, parts: seq<Part>, target: Span, p: Policy, rs: Replacements): string {
    if parts == [] then ""
    else Body(text, parts[..|parts| - 1], target, p, rs) + PieceText(text, parts[|parts| - 1], target, p, rs)
  }

  function Rendered(text: string, window: Span, parts: seq<Part>, target: Span, p: Policy, others: seq<Span>): string {
    Edge(window.start > 0) +
    Body(text, parts, target, p, ReplacementsFor(text, MaskSpans(parts), others, target, p)) +
    Edge(window.end < |text|)
  }

  /** An ellipsis where the text goes on. */
  function Edge(more: bool): string {
    if more then ELLIPSIS else []
  }

  lemma BodyStep(text: string, parts: seq<Part>, target: Span, p: Policy, rs: Replacements, n: nat)
    requires n < |parts|
    ensures Body(text, parts[..n + 1], target, p, rs) ==
            Body(text, parts[..n], target, p, rs) + PieceText(text, parts[n], target, p, rs)
  {
    assert parts[..n + 1][..n] == parts[..n];
  }

  method RenderPiece(text: string, part: Part, target: Span, p: Policy, rs: Replacements) returns (piece: string)
    requires part.span.end <= |text|
    ensures piece == PieceText(text, part, target, p, rs)
  {
    if part.Mask? {
      piece := MaskText(text, part.span, target, p);
    } else {
      piece := RenderContext(TextOf(text, part.span), rs);
    }
  }

  /** Walk the parts, emitting collapsed context and masks in order. */
  method RenderBody(text: string, parts: seq<Part>, target: Span, p: Policy, rs: Replacements) returns (body: string)
    requires forall part :: part in parts ==> part.span.end <= |text|
    ensures body == Body(text, parts, target, p, rs)
  {
    body := [];
    for n := 0 to |parts|
      invariant body == Body(text, parts[..n], target, p, rs)
    {
      BodyStep(text, parts, target, p, rs, n);
      assert parts[n] in parts;
      var piece := RenderPiece(text, parts[n], target, p, rs);
      body := body + piece;
    }
    assert parts[..|parts|] == parts;
  }

  method Render(text: string, window: Span, parts: seq<Part>, target: Span, p: Policy, others: seq<Span>)
    returns (snippet: string)
    requires (forall part :: part in parts ==> part.span.end <= |text|) && forall s :: s in others ==> s.end <= |text|
    ensures snippet == Rendered(text, window, parts, target, p, others)
  {
    MaskSpansAreParts(parts);
    var rs := BuildReplacements(text, MaskSpans(parts), others, target, p);
    var body := RenderBody(text, parts, target, p, rs);
    snippet := Edge(window.start > 0) + body + Edge(window.end < |text|);
  }

  // ----- the final refusal -----

  predicate Contains(s: string, t: string) {
    exists i :: 0 <= i <= |s| && OccursAt(s, t, i)
  }

  /** A snippet ready to be stored, if its text holds none of the matched texts. */
  datatype Draft = Draft(window: Span, parts: seq<Part>, secrets: seq<string>, text: string)

  predicate Leaks(d: Draft) {
    exists k :: 0 <= k < |d.secrets| && Contains(d.text, d.secrets[k])
  }

  method HoldsPlaintext(snippet: string, secrets: seq<string>) returns (found: bool)
    ensures found <==> exists k :: 0 <= k < |secrets| && Contains(snippet, secrets[k])
  {
    for k := 0 to |secrets|
      invariant forall j :: 0 <= j < k ==> !Contains(snippet, secrets[j])
    {
      var at := Find(snippet, secrets[k], 0, |snippet|);
      FindIs(snippet, secrets[k], 0, |snippet|);
      if at.Some? {
        assert OccursAt(snippet, secrets[k], at.value);
        return true;
      }
    }
    return false;
  }

  datatype Outcome = Snippet(draft: Draft, stored: string) | ValueError | RedactionError

  /** The snippet of `target` against the other matches, as a function of the inputs alone. */
  function DraftOf(text: string, target: Span, p: Policy, others: seq<Span>): Draft
    requires target.end <= |text|
  {
    var raw := WindowOf(text, target, p.contextChars, others);
    var window: Span := if raw.start < raw.end then raw else target;
    var parts := PartsOf(text, target, p.contextChars, others);
    Draft(window, parts, SecretsOf(text, [target] + others), Rendered(text, window, parts, target, p, others))
  }

  /** What that snippet shows and hides. */
  lemma DraftIsSafe(text: string, target: Span, p: Policy, others: seq<Span>)
    requires target.end <= |text| && forall s :: s in others ==> s.end <= |text|
    ensures var d := DraftOf(text, target, p, others);
            IsLayout(text, target, p.contextChars, others, d.secrets, d.window, d.parts)
  {
    LayoutIsSafe(text, target, p.contextChars, others);
  }

  /**
   Redact one match. Neither the masking nor the edge check ever fails; the snippet is refused
   exactly when its rendered text holds a matched text, and what is stored holds none.
   */
  method RedactSnippet(text: string, target: Span, p: Policy, others: seq<Span>) returns (r: Outcome)
    requires forall s :: s in others ==> s.end <= |text|
    ensures r.ValueError? <==> target.end > |text|
    ensures target.end <= |text| ==>
              r == if Leaks(DraftOf(text, target, p, others)) then RedactionError
                   else Snippet(DraftOf(text, target, p, others),
                                Take(DraftOf(text, target, p, others).text, MAX_SNIPPET_CHARS))
    ensures r.Snippet? ==>
              IsLayout(text, target, p.contextChars, others, r.draft.secrets, r.draft.window, r.draft.parts)
    ensures r.Snippet? ==> forall t :: t in r.draft.secrets ==> !Contains(r.stored, t)
  {
    if target.end > |text| {
      return ValueError;
    }
    var window, parts, secrets, failed := LayOutSnippet(text, target, p.contextChars, others);
    var snippet := Render(text, window, parts, target, p, others);
    var found := HoldsPlaintext(snippet, secrets);
    if failed || found {
      return RedactionError;
    }
    r := Snippet(Draft(window, parts, secrets, snippet), Take(snippet, MAX_SNIPPET_CHARS));
    forall t | t in secrets ensures !Contains(r.stored, t) {
      var k :| 0 <= k < |secrets| && secrets[k] == t;
      CutHoldsNoMore(snippet, MAX_SNIPPET_CHARS, t);
    }
  }

  /** Truncation can only remove, never complete, an occurrence. */
  lemma CutHoldsNoMore(s: string, limit: nat, t: string)
    ensures Contains(Take(s, limit), t) ==> Contains(s, t)
  {
    if Contains(Take(s, limit), t) {
      var i :| 0 <= i <= |Take(s, limit)| && OccursAt(Take(s, limit), t, i);
      assert Take(s, limit)[i..i + |t|] == s[i..i + |t|];
      assert OccursAt(s, t, i);
    }
  }

  // ----- snippets that are refused whatever the context -----

  lemma InsideIsContained(before: string, s: string, after: string, t: string)
    requires Contains(s, t)
    ensures Contains(before + s + after, t)
  {
    InFirst(s, after, t);
    InSecond(before, s + after, t);
    assert before + s + after == before + (s + after);
  }

  lemma InFirst(a: string, b: string, t: string)
    requires Contains(a, t)
    ensures Contains(a + b, t)
  {
    var i :| 0 <= i <= |a| && OccursAt(a, t, i);
    assert (a + b)[i..i + |t|] == a[i..i + |t|];
    assert OccursAt(a + b, t, i);
  }

  lemma InSecond(a: string, b: string, t: string)
    requires Contains(b, t)
    ensures Contains(a + b, t)
  {
    var i :| 0 <= i <= |b| && OccursAt(b, t, i);
    assert (a + b)[|a| + i..|a| + i + |t|] == b[i..i + |t|];
    assert OccursAt(a + b, t, |a| + i);
  }

  lemma {:induction false} PieceIsContained(text: string, parts: seq<Part>, target: Span, p: Policy, rs: Replacements,
                                            part: Part, t: string)
    requires part in parts && Contains(PieceText(text, part, target, p, rs), t)
    ensures Contains(Body(text, parts, target, p, rs), t)
  {
    var before, last := parts[..|parts| - 1], parts[|parts| - 1];
    if part == last {
      InSecond(Body(text, before, target, p, rs), PieceText(text, last, target, p, rs), t);
    } else {
      PieceIsContained(text, before, target, p, rs, part, t);
      InFirst(Body(text, before, target, p, rs), PieceText(text, last, target, p, rs), t);
    }
  }

  /** A matched text that occurs in the target's own mask is refused in every context. */
  lemma MaskRefusesItself(text: string, target: Span, p: Policy, others: seq<Span>, t: string)
    requires target.end <= |text| && forall s :: s in others ==> s.end <= |text|
    requires IsMatchedText(text, [target] + others, t) && Contains(MaskOf(TextOf(text, target), p), t)
    ensures Leaks(DraftOf(text, target, p, others))
  {
    var d := DraftOf(text, target, p, others);
    var rs := ReplacementsFor(text, MaskSpans(d.parts), others, target, p);
    DraftIsSafe(text, target, p, others);
    PieceIsContained(text, d.parts, target, p, rs, Part.Mask(target), t);
    InsideIsContained(Edge(d.window.start > 0), Body(text, d.parts, target, p, rs), Edge(d.window.end < |text|), t);
    assert t in d.secrets;
    var k :| 0 <= k < |d.secrets| && d.secrets[k] == t;
  }
}
