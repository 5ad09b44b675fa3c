/** Single inputs at which a promise fails, one for each exact condition that is not about runs. */
module Counterexamples {
  import opened Basics
  import Coverage
  import BatchProtocol
  import opened Findings
  import Suppressions
  import Lifecycle
  import LifecycleTheorems
  import Escalation
  import Callback
  import Spans
  import Redaction
  import Rendering

  // ----- coverage -----

  function ZeroDigest(n: nat): string {
    if n == 0 then [] else ZeroDigest(n - 1) + ['0']
  }

  lemma {:induction false} ZeroesAreHex(n: nat)
    ensures |ZeroDigest(n)| == n && forall i :: 0 <= i < n ==> ZeroDigest(n)[i] == '0'
  {
    if n > 0 {
      ZeroesAreHex(n - 1);
    }
  }

  /** A skip recorded under the scope kind: allowed when recorded, and its report is refused. */
  lemma ScopeKindIsRefused(digest: string) returns (ops: seq<Coverage.Op>)
    requires digest == ZeroDigest(64)
    ensures ops == [Coverage.Skip(Coverage.UnsupportedType, Coverage.ScopeKind, Some(digest))]
    ensures Coverage.AllAllowed(ops) && !Coverage.Valid(Coverage.Payload(ops))
  {
    ZeroesAreHex(64);
    ops := [Coverage.Skip(Coverage.UnsupportedType, Coverage.ScopeKind, Some(digest))];
    assert ops[..0] == [];
    assert Coverage.References(ops) == Coverage.References(ops[..0]) + Coverage.ReferenceOf(ops[0]);
    assert !Coverage.GapKindMatches(Coverage.Retained(ops)[0]);
    Coverage.PayloadAcceptedIff(ops);
  }

  // ----- one number, two batches -----

  function EmptyBatch(engine: nat, findings: seq<BatchProtocol.Candidate>): BatchProtocol.Progress {
    BatchProtocol.Progress(engine, 1, 1, findings, 0, BatchProtocol.NoTally(), Coverage.EmptyReport(),
                           BatchProtocol.Origin(0, 0, 1, [], {}, []))
  }

  lemma EmptyBatchIsValid(engine: nat, findings: seq<BatchProtocol.Candidate>, nothing: seq<Coverage.Op>)
    requires nothing == []
    ensures BatchProtocol.ValidProgress(EmptyBatch(engine, findings))
  {
    Coverage.PayloadOfNothing(nothing);
    Coverage.PayloadAccepted(nothing);
  }

  /** The second of two batches under one engine and number is acknowledged, and its finding is stored nowhere. */
  lemma AcknowledgedButNotStored(engine: nat, c: BatchProtocol.Candidate)
    returns (t: BatchProtocol.Task, first: BatchProtocol.Progress, second: BatchProtocol.Progress)
    ensures first.findings == [] && second.findings == [c]
    ensures var stored := BatchProtocol.SubmitProgress(t, first).0;
            && BatchProtocol.SubmitProgress(stored, second) == (stored, BatchProtocol.Counter(second.sequence))
            && stored.findings == []
  {
    t := BatchProtocol.Lease(BatchProtocol.NewTask(), engine, false);
    first, second := EmptyBatch(engine, []), EmptyBatch(engine, [c]);
    EmptyBatchIsValid(engine, [], []);
    EmptyBatchIsValid(engine, [c], []);
  }

  // ----- suppressions -----

  function PlainDisplay(): Display {
    Display(map[], "snippet", "pack", None, None, High)
  }

  function PlainPayload(ruleId: string): Payload {
    Payload("fingerprint", ruleId, PlainDisplay(), "hash", None, None, None)
  }

  function PlainContext(rules: seq<Suppression>): Context {
    Context(7, 1, 10, rules, Policy([], map[], {}), None)
  }

  /** A rule-wide suppression hides a stored finding that has another rule. */
  lemma RuleMismatchHides(all: seq<Suppression>, f: Finding)
    requires all == [Suppression(1, ByRule, "new-rule", None, None)]
    requires f == NewRow(PlainPayload("old-rule"), PlainContext([]), 0)
    ensures var g := Refreshed(f, PlainPayload("new-rule"), PlainContext(all));
            Hidden(g) && !Suppressions.Justified(g, all)
  {
    var p, ctx := PlainPayload("new-rule"), PlainContext(all);
    assert all[..0] == [] && Applicable(all[..0], 7, 10) == [];
    assert Applicable(all, 7, 10) == all;
    assert PayloadCover(ctx, p) == Some(all[0]);
    Lifecycle.RefreshedMarks(f, p, ctx);
    LifecycleTheorems.SightingJustifiedIff(f, p, ctx, all);
  }

  /** A path glob that matches everything leaves a judged finding in view. */
  lemma GlobLeavesJudged(s: Suppression, f: Finding)
    requires s == Suppression(1, PathGlob, "*", None, None)
    requires f.display.locator == map["path" := "a"] && f.standing.state == FalsePositive && !Hidden(f)
    ensures Covers(s, f) && !Hidden(Suppressions.Creating(s, f, 0, None))
  {
    assert GlobMatches("a", "*") by {
      assert "*"[1..] == "" && "a"[1..] == "" && GlobMatches("", "") && GlobMatches("", "*");
    }
    assert "path" in f.display.locator && "path" in LOCATOR_PATH_KEYS;
    Suppressions.CreateHidesIff(s, f, 0, None);
  }

  // ----- escalation -----

  /** An owner that is in no table: the query drops the finding, the target list would broadcast it. */
  lemma DanglingOwnerDisagrees(w: Escalation.World, f: Finding)
    requires w == Escalation.World(map[], [Escalation.Channel(1, None, {})], [])
    requires f.standing.owner == Some(3)
    ensures !Escalation.HasTarget(w, f) && Escalation.Targets(w, f) == [1]
  {
    assert w.channels[..0] == [] && Escalation.Wanting(w.channels[..0], f) == [];
    assert Escalation.Wants(w.channels[0], f);
  }

  // ----- callbacks -----

  lemma ArrivesTwice(a: Callback.Report, b: Callback.Report)
    ensures Callback.After(Callback.Silent(), [a, b]) == Callback.Recorded(Callback.Recorded(Callback.Silent(), a), b)
  {
    assert [a, b] == [a] + [b] && [b][..0] == [];
    Callback.AfterFirst(Callback.Silent(), a, [b]);
  }

  /** Of two callbacks the older one carries the id: whether it is kept depends on which arrives first. */
  lemma StaleIdIsLost(older: Callback.Report, newer: Callback.Report)
    requires older == Callback.Report(Callback.InProgress, Some(1), Some("T-1"), None, 5)
    requires newer == Callback.Report(Callback.ExternalResolved, Some(2), None, None, 4)
    ensures Callback.After(Callback.Silent(), [older, newer]).externalId == Some("T-1")
    ensures Callback.After(Callback.Silent(), [newer, older]).externalId == None
  {
    ArrivesTwice(older, newer);
    ArrivesTwice(newer, older);
    assert |"T-1"| == 3;
  }

  /** A callback without a time moves the recorded time back to its arrival. */
  lemma UndatedMovesBack(k: Callback.Link, c: Callback.Report)
    requires k.stateAt == Some(9) && c.stateAt == None && c.arrivedAt == 4
    ensures Callback.Recorded(k, c).stateAt == Some(4)
  {
  }

  // ----- snippets -----

  lemma DecimalOfFive()
    ensures Rendering.Decimal(5) == "5"
  {
  }

  /** A match whose text is the word "chars" is dropped: its own mask contains it. */
  lemma CharsIsRefused(text: string, target: Spans.Span, others: seq<Spans.Span>)
    requires text == "chars" && target.start == 0 && target.end == 5 && others == []
    ensures Rendering.Leaks(Rendering.DraftOf(text, target, Rendering.DefaultPolicy(), others))
  {
    var p := Rendering.DefaultPolicy();
    assert Redaction.TextOf(text, target) == text;
    var mask := Rendering.MaskText(text, target, target, p);
    DecimalOfFive();
    assert mask == "[" + "5" + " chars redacted]";
    assert mask[3..8] == "chars";
    assert Spans.OccursAt(mask, text, 3);
    assert ([target] + others)[0] == target;
    assert Redaction.IsMatchedText(text, [target] + others, text);
    Rendering.MaskRefusesItself(text, target, p, others, text);
  }

  /** A match "ab cd" with the same words two blanks apart before it. */
  predicate TwoBlanks(text: string, target: Spans.Span, others: seq<Spans.Span>) {
    text == "ab  cd;ab cd" && target.start == 7 && target.end == 12 && others == []
  }

  lemma OneCopy(text: string, target: Spans.Span, others: seq<Spans.Span>, i: int)
    requires TwoBlanks(text, target, others) && i != 7
    ensures !Spans.OccursAt(text, "ab cd", i)
  {
    if 0 <= i && i + 5 <= 12 {
      var at := text[i..i + 5];
      assert at[0] == text[i] && at[3] == text[i + 3] && "ab cd"[0] == 'a' && "ab cd"[3] == 'c';
    }
  }

  lemma TwoBlanksMatch(text: string, target: Spans.Span, others: seq<Spans.Span>)
    requires TwoBlanks(text, target, others)
    ensures Redaction.TextOf(text, target) == "ab cd"
    ensures [target] + others == [target] && Redaction.SecretsOf(text, [target]) == ["ab cd"]
  {
    assert text[7..12] == "ab cd";
    assert [target][..0] == [] && Redaction.SecretsOf(text, [target][..0]) == [];
  }

  lemma NothingToAdd(text: string, target: Spans.Span, others: seq<Spans.Span>, window: Spans.Span)
    requires TwoBlanks(text, target, others)
    ensures Redaction.RoundOf(text, ["ab cd"], window, [target]) == []
  {
    var secrets := ["ab cd"];
    var added: seq<Spans.Span> := Redaction.RoundOf(text, secrets, window, [target]);
    Redaction.RoundIs(text, secrets, window, [target]);
    forall x ensures !Redaction.Due(text, secrets, window, [target], x) {
      forall i | Spans.OccursAt(text, secrets[0], i) ensures i == 7 {
        if i != 7 { OneCopy(text, target, others, i); }
      }
      Redaction.SingleCovers(target, x);
    }
    if added != [] {
      assert added[0] in added && Spans.Has(added[0], added[0].start);
      assert Spans.Covered(added, added[0].start);
    }
  }

  /** The only mask is the target's. */
  lemma OneMask(text: string, target: Spans.Span, others: seq<Spans.Span>, window: Spans.Span)
    requires TwoBlanks(text, target, others)
    ensures Redaction.PlanOf(text, target, others, window, ["ab cd"]) == [target]
  {
    var secrets := ["ab cd"];
    var plan: seq<Spans.Span> := Redaction.PlanOf(text, target, others, window, secrets);
    NothingToAdd(text, target, others, window);
    assert [target] + Redaction.NeighboursOf(target, others, window) == [target];
    assert Redaction.RoundIn(text, secrets, window)([target]) == [];
    assert Redaction.SettledOf(text, secrets, window, [target]) == [target];
    Spans.SortByStartSorts([target]);
    assert multiset(plan) == multiset([target]);
    assert |plan| == |multiset(plan)| == 1 && plan[0] in multiset([target]);
  }

  lemma WholeWindow(text: string, target: Spans.Span, others: seq<Spans.Span>)
    requires TwoBlanks(text, target, others)
    ensures Redaction.WindowOf(text, target, 48, others) == Spans.RawSpan.Span(0, 12)
  {
    var secrets := ["ab cd"];
    TwoBlanksMatch(text, target, others);
    Redaction.CutOrClean(text, secrets, 0);
  }

  /** The context before the target, then the target's mask. */
  lemma TwoParts(text: string, target: Spans.Span, others: seq<Spans.Span>, before: Spans.Span)
    requires TwoBlanks(text, target, others) && before.start == 0 && before.end == 7
    ensures Redaction.PartsOf(text, target, 48, others) == [Redaction.Context(before), Redaction.Mask(target)]
  {
    WholeWindow(text, target, others);
    TwoBlanksMatch(text, target, others);
    var window: Spans.Span := Spans.RawSpan.Span(0, 12);
    OneMask(text, target, others, window);
    assert before == Spans.RawSpan.Span(0, 7);
    OneStretch(before, target, window);
  }

  lemma OneStretch(before: Spans.Span, target: Spans.Span, window: Spans.Span)
    requires window.start == before.start && before.end == target.start && target.end == window.end
    ensures Redaction.LayoutOf([target], window) == [Redaction.Context(before), Redaction.Mask(target)]
  {
    var none: seq<Redaction.Part> := [];
    assert Redaction.WalkOf([target], window, 0) == (none, window.start);
    assert Redaction.Opened(none, window.start, target.start) == [Redaction.Context(before)];
    assert Redaction.WalkOf([target], window, 1) ==
           ([Redaction.Context(before)] + [Redaction.Mask(target)], target.end);
  }

  lemma {:induction false} ScrubLeaves(s: string, rs: Rendering.Replacements)
    requires forall e :: e in rs ==> !Rendering.Contains(s, e.0)
    ensures Rendering.Scrubbed(s, rs) == s
  {
    if rs != [] {
      ScrubLeaves(s, rs[..|rs| - 1]);
      ReplaceLeaves(s, rs[|rs| - 1].0, rs[|rs| - 1].1);
    }
  }

  lemma {:induction false} ReplaceLeaves(s: string, u: string, mask: string)
    requires !Rendering.Contains(s, u)
    ensures Rendering.Replace(s, u, mask) == s
  {
    if u != "" && |s| >= |u| {
      assert Spans.OccursAt(s, u, 0) <==> s[..|u|] == u;
      if Rendering.Contains(s[1..], u) {
        assert s == [s[0]] + s[1..];
        Rendering.InSecond([s[0]], s[1..], u);
      }
      ReplaceLeaves(s[1..], u, mask);
    }
  }

  /** One more character in the collapse. */
  lemma OneMore(s: string, c: char)
    ensures !Rendering.IsSpace(c) ==> Rendering.Collapsed(s + [c]) == Rendering.Collapsed(s) + [c]
    ensures Rendering.IsSpace(c) && s != "" && !Rendering.IsSpace(s[|s| - 1]) ==>
              Rendering.Collapsed(s + [c]) == Rendering.Collapsed(s) + " "
    ensures Rendering.IsSpace(c) && s != "" && Rendering.IsSpace(s[|s| - 1]) ==>
              Rendering.Collapsed(s + [c]) == Rendering.Collapsed(s)
  {
    assert (s + [c])[..|s + [c]| - 1] == s;
  }

  lemma BlankIsSpace()
    ensures Rendering.IsSpace(' ')
    ensures forall c :: 'a' <= c <= 'd' || c == ';' ==> !Rendering.IsSpace(c)
  {
  }

  lemma TwoBlanksCollapse(s: string, c: string)
    requires s == "ab  cd;" && c == "ab cd;"
    ensures Rendering.Collapsed(s) == c
  {
    BlankIsSpace();
    var empty: string := "";
    assert Rendering.Collapsed(empty) == empty;
    var a := empty + ['a'];
    OneMore(empty, 'a');
    var ab := a + ['b'];
    OneMore(a, 'b');
    var one := ab + [' '];
    OneMore(ab, ' ');
    var two := one + [' '];
    OneMore(one, ' ');
    CollapseTail(two, s, ab + " ", c);
  }

  lemma CollapseTail(two: string, s: string, one: string, c: string)
    requires Rendering.Collapsed(two) == one
    requires s == two + ['c', 'd', ';'] && c == one + ['c', 'd', ';']
    ensures Rendering.Collapsed(s) == c
  {
    BlankIsSpace();
    OneMore(two, 'c');
    OneMore(two + ['c'], 'd');
    OneMore(two + ['c'] + ['d'], ';');
    assert s == two + ['c'] + ['d'] + [';'];
    assert c == one + ['c'] + ['d'] + [';'];
  }

  /** The context as it is shown: nothing is scrubbed out of it, and its two blanks become one. */
  lemma CollapsedContext(text: string, target: Spans.Span, others: seq<Spans.Span>, before: Spans.Span)
    requires TwoBlanks(text, target, others) && before.start == 0 && before.end == 7
    ensures var rs := Rendering.ReplacementsFor(text, [target], others, target, Rendering.DefaultPolicy());
            Rendering.ContextText(Redaction.TextOf(text, before), rs) == "ab cd;"
  {
    var fragment := Redaction.TextOf(text, before);
    var rs := Rendering.ReplacementsFor(text, [target], others, target, Rendering.DefaultPolicy());
    assert fragment == "ab  cd;";
    TwoBlanksMatch(text, target, others);
    Rendering.ReplacementsAre(text, [target], others, target, Rendering.DefaultPolicy());
    forall e | e in rs ensures !Rendering.Contains(fragment, e.0) {
      var i :| 0 <= i < |rs| && rs[i] == e;
      assert Rendering.Knows(rs, e.0) && Redaction.IsMatchedText(text, [target], e.0);
      NotInContext(text, target, others, fragment);
    }
    ScrubLeaves(fragment, rs);
    TwoBlanksCollapse(fragment, "ab cd;");
  }

  lemma NotInContext(text: string, target: Spans.Span, others: seq<Spans.Span>, fragment: string)
    requires TwoBlanks(text, target, others) && fragment == text[0..7]
    ensures !Rendering.Contains(fragment, "ab cd")
  {
    forall i: nat ensures !Spans.OccursAt(fragment, "ab cd", i) {
      if Spans.OccursAt(fragment, "ab cd", i) {
        assert text[i..i + 5] == fragment[i..i + 5];
        OneCopy(text, target, others, i);
      }
    }
  }

  /** The mask of "ab cd" does not hold it, and yet its snippet is refused: the collapse completes a copy. */
  lemma CollapseCompletes(text: string, target: Spans.Span, others: seq<Spans.Span>)
    requires TwoBlanks(text, target, others)
    ensures !Rendering.Contains(Rendering.MaskOf("ab cd", Rendering.DefaultPolicy()), "ab cd")
    ensures Rendering.Leaks(Rendering.DraftOf(text, target, Rendering.DefaultPolicy(), others))
  {
    var before: Spans.Span := Spans.RawSpan.Span(0, 7);
    TwoBlanksMatch(text, target, others);
    TwoParts(text, target, others, before);
    MaskHasNoB("ab cd");
    ContextLeaks(text, target, others, before);
  }

  lemma ContextLeaks(text: string, target: Spans.Span, others: seq<Spans.Span>, before: Spans.Span)
    requires TwoBlanks(text, target, others) && before.start == 0 && before.end == 7
    requires Redaction.SecretsOf(text, [target] + others) == ["ab cd"]
    requires Redaction.PartsOf(text, target, 48, others) == [Redaction.Context(before), Redaction.Mask(target)]
    ensures Rendering.Leaks(Rendering.DraftOf(text, target, Rendering.DefaultPolicy(), others))
  {
    var p := Rendering.DefaultPolicy();
    var d := Rendering.DraftOf(text, target, p, others);
    var t := d.secrets[0];
    var rs := Rendering.ReplacementsFor(text, Redaction.MaskSpans(d.parts), others, target, p);
    MaskOfTwoParts(d.parts, before, target);
    CollapsedContext(text, target, others, before);
    HoldsTheSecret(Rendering.ContextText(Redaction.TextOf(text, before), rs), t);
    Rendering.PieceIsContained(text, d.parts, target, p, rs, Redaction.Context(before), t);
    Rendering.InsideIsContained(Rendering.Edge(d.window.start > 0), Rendering.Body(text, d.parts, target, p, rs),
                                Rendering.Edge(d.window.end < |text|), t);
  }

  lemma HoldsTheSecret(c: string, t: string)
    requires c == "ab cd;" && t == "ab cd"
    ensures Rendering.Contains(c, t)
  {
    assert c[0..5] == t;
    assert Spans.OccursAt(c, t, 0);
  }

  lemma MaskOfTwoParts(parts: seq<Redaction.Part>, before: Spans.Span, target: Spans.Span)
    requires parts == [Redaction.Context(before), Redaction.Mask(target)]
    ensures Redaction.MaskSpans(parts) == [target]
  {
    assert parts[..1] == [Redaction.Context(before)] && parts[..1][..0] == [];
    assert Redaction.MaskSpans(parts[..1][..0]) == [] && Redaction.MaskSpans(parts[..1]) == [];
  }

  lemma MaskHasNoB(t: string)
    requires t == "ab cd"
    ensures !Rendering.Contains(Rendering.MaskOf(t, Rendering.DefaultPolicy()), t)
  {
    var mask := Rendering.MaskOf(t, Rendering.DefaultPolicy());
    DecimalOfFive();
    assert mask == "[" + "5" + " chars redacted]" && 'b' !in mask;
    forall i: nat ensures !Spans.OccursAt(mask, t, i) {
      HasItsCharacters(mask, t, i, 1);
    }
  }

  lemma HasItsCharacters(s: string, t: string, i: nat, k: nat)
    requires k < |t|
    ensures Spans.OccursAt(s, t, i) ==> t[k] in s
  {
    if Spans.OccursAt(s, t, i) {
      assert s[i..i + |t|][k] == s[i + k];
    }
  }
}
