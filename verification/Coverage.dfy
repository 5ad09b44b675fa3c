/**
 Coverage accounting of one fetch task: what the connector and the runner record,
 the report the engine sends, the difference between two reports, the API's
 accumulation of reports, and the API's validators.

 The state of a task's coverage is the list of operations recorded so far. A report
 is a function of that list (`Payload`); `CoverageRecorder` holds the imperative recorder
 that is proved to produce exactly that report.
 */
module Coverage {
  import opened Basics

  datatype Disposition = Skipped | Failed | ScopeGap

  datatype Reason =
    | PermissionDenied | RateLimited | SizeLimit | OutputLimit | UnsupportedType
    | ConnectorError | MissingResource | InvalidMetadata | InvalidResponse | ParseError
    | Timeout | EmptyContent | BinaryContent | Cancelled | Unreported

  datatype ObjectKind = ScopeKind | Page | Comment | Attachment | Project | Record | Path

  datatype Phase = Discovery | Fetch

  /** Retained gap references per report; exact counts continue beyond it. */
  const GAP_LIMIT: nat := 10_000

  predicate ReasonAllowed(outcome: Disposition, reason: Reason) {
    match outcome
    case Skipped => reason.UnsupportedType? || reason.EmptyContent? || reason.BinaryContent?
    case Failed =>
      reason.PermissionDenied? || reason.RateLimited? || reason.SizeLimit? || reason.OutputLimit? ||
      reason.ConnectorError? || reason.MissingResource? || reason.InvalidMetadata? ||
      reason.InvalidResponse? || reason.ParseError? || reason.Timeout?
    case ScopeGap =>
      reason.PermissionDenied? || reason.RateLimited? || reason.ConnectorError? ||
      reason.MissingResource? || reason.InvalidMetadata? || reason.InvalidResponse? ||
      reason.Timeout? || reason.Cancelled? || reason.Unreported?
  }

  // ----- the wire report -----

  datatype Key = Key(outcome: Disposition, reason: Reason)
  datatype Gap = Gap(kind: ObjectKind, key: Key, reference: string)
  datatype Counts = Counts(requested: int, discovered: int, scanned: int, skipped: int, failed: int)
  datatype Scope = Scope(requested: Option<int>, discovered: int, gaps: int)
  datatype Subtotal = Subtotal(key: Key, count: int)
  datatype Report = Report(phase: Phase, counts: Counts, scope: Scope,
                           reasons: seq<Subtotal>, gaps: seq<Gap>, gapsOmitted: int)

  // Subtotals are listed in the alphabetical order of (outcome, reason).

  function OutcomeRank(outcome: Disposition): nat {
    match outcome case Failed => 0 case ScopeGap => 1 case Skipped => 2
  }

  function ReasonRank(reason: Reason): nat {
    match reason
    case BinaryContent => 0 case Cancelled => 1 case ConnectorError => 2 case EmptyContent => 3
    case InvalidMetadata => 4 case InvalidResponse => 5 case MissingResource => 6
    case OutputLimit => 7 case ParseError => 8 case PermissionDenied => 9 case RateLimited => 10
    case SizeLimit => 11 case Timeout => 12 case Unreported => 13 case UnsupportedType => 14
  }

  /** The order subtotals are listed in. */
  predicate Before(a: Key, b: Key) {
    OutcomeRank(a.outcome) < OutcomeRank(b.outcome) ||
    (a.outcome == b.outcome && ReasonRank(a.reason) < ReasonRank(b.reason))
  }

  lemma BeforeIsTotal(a: Key, b: Key)
    ensures a == b || Before(a, b) || Before(b, a)
    ensures !(Before(a, b) && Before(b, a)) && !Before(a, a)
  {
    assert a.reason == b.reason <==> ReasonRank(a.reason) == ReasonRank(b.reason);
  }

  lemma BeforeIsTransitive(a: Key, b: Key, c: Key)
    requires Before(a, b) && Before(b, c)
    ensures Before(a, c)
  {
  }

  predicate IsFirst(key: Key, keys: set<Key>) {
    key in keys && forall k :: k in keys && k != key ==> Before(key, k)
  }

  lemma {:induction false} FirstExists(keys: set<Key>)
    requires keys != {}
    ensures exists key :: IsFirst(key, keys)
  {
    var some :| some in keys;
    var rest := keys - {some};
    if rest == {} {
      assert keys == {some};
      assert IsFirst(some, keys);
    } else {
      FirstExists(rest);
      var first :| IsFirst(first, rest);
      BeforeIsTotal(some, first);
      if Before(some, first) {
        forall k | k in keys && k != some ensures Before(some, k) {
          if k != first { BeforeIsTransitive(some, first, k); }
        }
        assert IsFirst(some, keys);
      } else {
        assert IsFirst(first, keys);
      }
    }
  }

  lemma FirstIsUnique(a: Key, b: Key, keys: set<Key>)
    requires IsFirst(a, keys) && IsFirst(b, keys)
    ensures a == b
  {
    BeforeIsTotal(a, b);
  }

  function First(keys: set<Key>): (key: Key)
    requires keys != {}
    ensures IsFirst(key, keys)
  {
    FirstExists(keys);
    assert forall a, b :: IsFirst(a, keys) && IsFirst(b, keys) ==> a == b by {
      forall a, b | IsFirst(a, keys) && IsFirst(b, keys) ensures a == b { FirstIsUnique(a, b, keys); }
    }
    var key :| key in keys && IsFirst(key, keys);
    key
  }

  type Counter = map<Key, int>

  function Get(counter: Counter, key: Key): int {
    if key in counter then counter[key] else 0
  }

  function Positive(counter: Counter): Counter {
    map key | key in counter && counter[key] > 0 :: counter[key]
  }

  /** The entries of a counter in listing order. */
  function Listed(counter: Counter): seq<Subtotal>
    decreases |counter|
  {
    if counter == map[] then []
    else
      assert counter.Keys != {};
      var key := First(counter.Keys);
      [Subtotal(key, counter[key])] + Listed(counter - {key})
  }

  /** The positive entries of a counter in listing order. */
  function Subtotals(counter: Counter): seq<Subtotal> {
    Listed(Positive(counter))
  }

  function KeyWeight(key: Key): Subtotal -> int {
    (entry: Subtotal) => if entry.key == key then entry.count else 0
  }

  function OutcomeWeight(outcome: Disposition): Subtotal -> int {
    (entry: Subtotal) => if entry.key.outcome == outcome then entry.count else 0
  }

  /** The total a list of subtotals states for one key. */
  function CountIn(list: seq<Subtotal>, key: Key): int {
    Sum(KeyWeight(key), list)
  }

  function GapWeight(key: Key): Gap -> int {
    (gap: Gap) => if gap.key == key then 1 else 0
  }

  predicate IsDigest(s: string) {
    |s| == 64 && forall i :: 0 <= i < 64 ==> '0' <= s[i] <= '9' || 'a' <= s[i] <= 'f'
  }

  predicate GapKindMatches(gap: Gap) {
    gap.key.outcome.ScopeGap? <==> gap.kind.ScopeKind?
  }

  // ----- the API's validators -----

  predicate CountsReconcile(c: Counts) {
    && c.requested >= 0 && c.discovered >= 0 && c.scanned >= 0 && c.skipped >= 0 && c.failed >= 0
    && c.requested == c.discovered
    && c.discovered == c.scanned + c.skipped + c.failed
  }

  predicate ScopeReconciles(s: Scope) {
    && s.discovered >= 0 && s.gaps >= 0
    && (s.requested.Some? ==> s.requested.value >= 0 && s.requested.value == s.discovered + s.gaps)
  }

  predicate ReasonsWellFormed(reasons: seq<Subtotal>) {
    && (forall i :: 0 <= i < |reasons| ==>
          reasons[i].count > 0 && ReasonAllowed(reasons[i].key.outcome, reasons[i].key.reason))
    && (forall i, j :: 0 <= i < j < |reasons| ==> reasons[i].key != reasons[j].key)
  }

  predicate GapsWellFormed(gaps: seq<Gap>) {
    && |gaps| <= GAP_LIMIT
    && (forall i :: 0 <= i < |gaps| ==> IsDigest(gaps[i].reference) && GapKindMatches(gaps[i]))
  }

  predicate TotalsReconcile(r: Report) {
    && Sum(OutcomeWeight(Skipped), r.reasons) == r.counts.skipped
    && Sum(OutcomeWeight(Failed), r.reasons) == r.counts.failed
    && Sum(OutcomeWeight(ScopeGap), r.reasons) == r.scope.gaps
    && r.gapsOmitted >= 0
    && |r.gaps| + r.gapsOmitted == r.counts.skipped + r.counts.failed + r.scope.gaps
  }

  predicate GapsWithinSubtotals(r: Report) {
    forall i :: 0 <= i < |r.gaps| ==>
      && (exists j :: 0 <= j < |r.reasons| && r.reasons[j].key == r.gaps[i].key)
      && Sum(GapWeight(r.gaps[i].key), r.gaps) <= CountIn(r.reasons, r.gaps[i].key)
  }

  /** Every check a report must pass before the API will look at it. */
  predicate Valid(r: Report) {
    && CountsReconcile(r.counts)
    && ScopeReconciles(r.scope)
    && ReasonsWellFormed(r.reasons)
    && GapsWellFormed(r.gaps)
    && TotalsReconcile(r)
    && GapsWithinSubtotals(r)
    && (r.phase.Discovery? ==> r.counts == Counts(0, 0, 0, 0, 0))
  }

  // ----- recorded operations -----

  /**
   What a fetch records. `Truncate` moves an object already recorded as scanned to
   failed; `ScopeLoss` is recorded through the fetch outcome and `TaskLoss` directly on
   the coverage after the fetch ended. A reference is the opaque digest of the object,
   absent when the task has no key or the caller names no object.
   */
  datatype Op =
    | Scan
    | Skip(reason: Reason, kind: ObjectKind, reference: Option<string>)
    | Fail(reason: Reason, kind: ObjectKind, reference: Option<string>)
    | Truncate(reason: Reason, kind: ObjectKind, reference: Option<string>)
    | ScopeLoss(reason: Reason, reference: Option<string>)
    | TaskLoss(reason: Reason, reference: Option<string>)

  function KeyOf(op: Op): Option<Key> {
    match op
    case Scan => None
    case Skip(reason, _, _) => Some(Key(Skipped, reason))
    case Fail(reason, _, _) => Some(Key(Failed, reason))
    case Truncate(reason, _, _) => Some(Key(Failed, reason))
    case ScopeLoss(reason, _) => Some(Key(ScopeGap, reason))
    case TaskLoss(reason, _) => Some(Key(ScopeGap, reason))
  }

  function KindOf(op: Op): ObjectKind
    requires !op.Scan?
  {
    if op.ScopeLoss? || op.TaskLoss? then ScopeKind else op.kind
  }

  /** The gap reference an operation asks to retain, if it has one. */
  function ReferenceOf(op: Op): seq<Gap> {
    if op.Scan? || op.reference.None? then []
    else [Gap(KindOf(op), KeyOf(op).value, op.reference.value)]
  }

  predicate OpAllowed(op: Op) {
    op.Scan? || (&& ReasonAllowed(KeyOf(op).value.outcome, KeyOf(op).value.reason)
                 && (op.reference.Some? ==> IsDigest(op.reference.value)))
  }

  predicate AllAllowed(ops: seq<Op>) {
    forall i :: 0 <= i < |ops| ==> OpAllowed(ops[i])
  }

  function Observed(op: Op): int { if op.Scan? || op.Skip? || op.Fail? then 1 else 0 }
  function Scanned(op: Op): int { if op.Scan? then 1 else if op.Truncate? then -1 else 0 }
  function SkippedObjects(op: Op): int { if op.Skip? then 1 else 0 }
  function FailedObjects(op: Op): int { if op.Fail? || op.Truncate? then 1 else 0 }
  function ScopeGaps(op: Op): int { if op.ScopeLoss? || op.TaskLoss? then 1 else 0 }
  function GapCount(op: Op): int { if op.Scan? then 0 else 1 }

  function CountsOf(ops: seq<Op>): Counts {
    Counts(Sum(Observed, ops), Sum(Observed, ops), Sum(Scanned, ops),
           Sum(SkippedObjects, ops), Sum(FailedObjects, ops))
  }

  function Bump(counter: Counter, key: Option<Key>): Counter {
    if key.None? then counter else counter[key.value := Get(counter, key.value) + 1]
  }

  function CounterOf(ops: seq<Op>): Counter {
    if ops == [] then map[] else Bump(CounterOf(ops[..|ops| - 1]), KeyOf(ops[|ops| - 1]))
  }

  /** All references the operations ask to retain, before the limit applies. */
  function References(ops: seq<Op>): seq<Gap> {
    if ops == [] then [] else References(ops[..|ops| - 1]) + ReferenceOf(ops[|ops| - 1])
  }

  function Retained(ops: seq<Op>): seq<Gap> {
    Take(References(ops), GAP_LIMIT)
  }

  function ReasonsOf(ops: seq<Op>): seq<Subtotal> {
    Subtotals(CounterOf(ops))
  }

  /** The report of a fetch that recorded exactly `ops`. */
  function Payload(ops: seq<Op>): Report {
    Report(Fetch, CountsOf(ops), Scope(None, 0, Sum(ScopeGaps, ops)), ReasonsOf(ops),
           Retained(ops), Sum(GapCount, ops) - |Retained(ops)|)
  }

  /** The report of `ops` with only a prefix of their references retained. */
  function Trimmed(ops: seq<Op>, gaps: seq<Gap>): Report {
    Payload(ops).(gaps := gaps, gapsOmitted := Sum(GapCount, ops) - |gaps|)
  }

  // ----- the engine's difference and the API's accumulation -----

  function KeysOf(list: seq<Subtotal>): set<Key> {
    set i | 0 <= i < |list| :: list[i].key
  }

  function CounterDifference(current: seq<Subtotal>, sent: seq<Subtotal>): Counter {
    map key | key in KeysOf(current) + KeysOf(sent) :: CountIn(current, key) - CountIn(sent, key)
  }

  function CounterSum(left: seq<Subtotal>, right: seq<Subtotal>): Counter {
    map key | key in KeysOf(left) + KeysOf(right) :: CountIn(left, key) + CountIn(right, key)
  }

  /** What `current` adds to a report already sent. */
  function Delta(current: Report, sent: Report): Report {
    var requested :=
      if current.scope.requested.Some? && sent.scope.requested.Some?
      then Some(current.scope.requested.value - sent.scope.requested.value)
      else current.scope.requested;
    Report(current.phase,
           Counts(current.counts.requested - sent.counts.requested,
                  current.counts.discovered - sent.counts.discovered,
                  current.counts.scanned - sent.counts.scanned,
                  current.counts.skipped - sent.counts.skipped,
                  current.counts.failed - sent.counts.failed),
           Scope(requested, current.scope.discovered - sent.scope.discovered,
                 current.scope.gaps - sent.scope.gaps),
           Subtotals(CounterDifference(current.reasons, sent.reasons)),
           if |sent.gaps| <= |current.gaps| then current.gaps[|sent.gaps|..] else [],
           current.gapsOmitted - sent.gapsOmitted)
  }

  /** The API's accumulation of one more report onto what a task already reported. */
  function Merge(existing: Option<Report>, delta: Report): Report {
    if existing.None? then delta
    else
      var e := existing.value;
      var gaps := e.gaps + delta.gaps;
      var retained := Take(gaps, GAP_LIMIT);
      var requested :=
        if e.scope.requested.Some? && delta.scope.requested.Some?
        then Some(e.scope.requested.value + delta.scope.requested.value) else None;
      Report(e.phase,
             Counts(e.counts.requested + delta.counts.requested,
                    e.counts.discovered + delta.counts.discovered,
                    e.counts.scanned + delta.counts.scanned,
                    e.counts.skipped + delta.counts.skipped,
                    e.counts.failed + delta.counts.failed),
             Scope(requested, e.scope.discovered + delta.scope.discovered,
                   e.scope.gaps + delta.scope.gaps),
             Subtotals(CounterSum(e.reasons, delta.reasons)),
             retained,
             e.gapsOmitted + delta.gapsOmitted + (|gaps| - |retained|))
  }

  // ----- counters and their listing -----

  lemma {:induction false} CounterConcat(a: seq<Op>, b: seq<Op>, key: Key)
    ensures Get(CounterOf(a + b), key) == Get(CounterOf(a), key) + Get(CounterOf(b), key)
  {
    if b == [] {
      assert a + b == a;
    } else {
      assert (a + b)[..|a + b| - 1] == a + b[..|b| - 1];
      CounterConcat(a, b[..|b| - 1], key);
    }
  }

  lemma {:induction false} CounterNonNegative(ops: seq<Op>, key: Key)
    ensures Get(CounterOf(ops), key) >= 0
  {
    if ops != [] {
      CounterNonNegative(ops[..|ops| - 1], key);
    }
  }

  lemma {:induction false} SumZero<T>(weight: T -> int, s: seq<T>)
    requires forall i :: 0 <= i < |s| ==> weight(s[i]) == 0
    ensures Sum(weight, s) == 0
  {
    if s != [] {
      SumZero(weight, s[..|s| - 1]);
    }
  }

  lemma SumFirst<T>(weight: T -> int, x: T, rest: seq<T>)
    ensures Sum(weight, [x] + rest) == weight(x) + Sum(weight, rest)
  {
    SumConcat(weight, [x], rest);
    assert [x][..0] == [];
    assert Sum(weight, [x]) == Sum(weight, []) + weight(x);
  }

  /** Listed in strictly increasing order, exactly the entries of the counter. */
  ghost predicate ListsAll(list: seq<Subtotal>, counter: Counter) {
    && (forall j :: 0 <= j < |list| ==> list[j].key in counter && list[j].count == counter[list[j].key])
    && (forall j, k :: 0 <= j < k < |list| ==> Before(list[j].key, list[k].key))
  }

  lemma {:induction false} ListedInOrder(counter: Counter)
    ensures ListsAll(Listed(counter), counter)
    decreases |counter|
  {
    if counter != map[] {
      var key := First(counter.Keys);
      ListedInOrder(counter - {key});
    }
  }

  /** The listing order does not matter to a sum: any entry may be taken out first. */
  lemma {:induction false} TakeOut(weight: Subtotal -> int, counter: Counter, key: Key)
    requires key in counter
    ensures Sum(weight, Listed(counter)) ==
            weight(Subtotal(key, counter[key])) + Sum(weight, Listed(counter - {key}))
    decreases |counter|
  {
    var first := First(counter.Keys);
    SumFirst(weight, Subtotal(first, counter[first]), Listed(counter - {first}));
    if first != key {
      var rest := counter - {key};
      assert first == First(rest.Keys) by {
        assert IsFirst(first, rest.Keys);
        FirstIsUnique(first, First(rest.Keys), rest.Keys);
      }
      TakeOut(weight, counter - {first}, key);
      assert counter - {first} - {key} == rest - {first};
      SumFirst(weight, Subtotal(first, rest[first]), Listed(rest - {first}));
    }
  }

  lemma {:induction false} SumAbsent(counter: Counter, key: Key)
    requires key !in counter
    ensures CountIn(Listed(counter), key) == 0
  {
    ListedInOrder(counter);
    SumZero(KeyWeight(key), Listed(counter));
  }

  lemma CountInListed(counter: Counter, key: Key)
    ensures CountIn(Listed(counter), key) == Get(counter, key)
  {
    if key in counter {
      TakeOut(KeyWeight(key), counter, key);
    }
    SumAbsent(counter - {key}, key);
    if key !in counter {
      assert counter - {key} == counter;
    }
  }

  lemma CountInSubtotals(counter: Counter, key: Key)
    ensures CountIn(Subtotals(counter), key) == if Get(counter, key) > 0 then Get(counter, key) else 0
  {
    CountInListed(Positive(counter), key);
  }

  lemma SubtotalsAgree(c: Counter, d: Counter)
    requires forall key :: Get(c, key) == Get(d, key)
    ensures Subtotals(c) == Subtotals(d)
  {
    forall key ensures key in Positive(c) <==> key in Positive(d) {
      assert Get(c, key) == Get(d, key);
    }
    assert Positive(c) == Positive(d) by {
      forall key | key in Positive(c) ensures Positive(c)[key] == Positive(d)[key] {
        assert Get(c, key) == Get(d, key);
      }
    }
  }

  lemma CountInAbsent(list: seq<Subtotal>, key: Key)
    requires key !in KeysOf(list)
    ensures CountIn(list, key) == 0
  {
    forall i | 0 <= i < |list| ensures KeyWeight(key)(list[i]) == 0 {
      assert list[i].key in KeysOf(list);
    }
    SumZero(KeyWeight(key), list);
  }

  lemma CountInPayload(ops: seq<Op>, key: Key)
    ensures CountIn(ReasonsOf(ops), key) == Get(CounterOf(ops), key)
  {
    CountInSubtotals(CounterOf(ops), key);
    CounterNonNegative(ops, key);
  }

  // ----- references and the retention limit -----

  lemma {:induction false} ReferencesConcat(a: seq<Op>, b: seq<Op>)
    ensures References(a + b) == References(a) + References(b)
  {
    if b == [] {
      assert a + b == a;
    } else {
      assert (a + b)[..|a + b| - 1] == a + b[..|b| - 1];
      ReferencesConcat(a, b[..|b| - 1]);
    }
  }

  lemma {:induction false} ReferencesBounded(ops: seq<Op>)
    ensures |References(ops)| <= Sum(GapCount, ops)
  {
    if ops != [] {
      ReferencesBounded(ops[..|ops| - 1]);
    }
  }

  /** The references operations `b` add to a report that already holds those of `a`. */
  function NewReferences(a: seq<Op>, b: seq<Op>): (gaps: seq<Gap>)
    ensures |Retained(a)| <= |Retained(a + b)|
    ensures gaps <= References(b)
  {
    ReferencesConcat(a, b);
    var all := Retained(a + b);
    assert |Retained(a)| <= |all|;
    assert all[|Retained(a)|..] <= References(b) by {
      if |References(a)| <= GAP_LIMIT {
        assert Retained(a) == References(a);
        assert all == Take(References(a) + References(b), GAP_LIMIT);
      }
    }
    all[|Retained(a)|..]
  }

  // ----- the two laws of the accounting -----

  lemma CountsConcat(a: seq<Op>, b: seq<Op>)
    ensures Sum(Observed, a + b) == Sum(Observed, a) + Sum(Observed, b)
    ensures Sum(Scanned, a + b) == Sum(Scanned, a) + Sum(Scanned, b)
    ensures Sum(SkippedObjects, a + b) == Sum(SkippedObjects, a) + Sum(SkippedObjects, b)
    ensures Sum(FailedObjects, a + b) == Sum(FailedObjects, a) + Sum(FailedObjects, b)
    ensures Sum(ScopeGaps, a + b) == Sum(ScopeGaps, a) + Sum(ScopeGaps, b)
    ensures Sum(GapCount, a + b) == Sum(GapCount, a) + Sum(GapCount, b)
  {
    SumConcat(Observed, a, b);
    SumConcat(Scanned, a, b);
    SumConcat(SkippedObjects, a, b);
    SumConcat(FailedObjects, a, b);
    SumConcat(ScopeGaps, a, b);
    SumConcat(GapCount, a, b);
  }

  /** What recording one more operation does to every total of a report. */
  lemma OneMore(ops: seq<Op>, op: Op)
    ensures CountsOf(ops + [op]) ==
            Counts(Sum(Observed, ops) + Observed(op), Sum(Observed, ops) + Observed(op),
                   Sum(Scanned, ops) + Scanned(op), Sum(SkippedObjects, ops) + SkippedObjects(op),
                   Sum(FailedObjects, ops) + FailedObjects(op))
    ensures Sum(ScopeGaps, ops + [op]) == Sum(ScopeGaps, ops) + ScopeGaps(op)
    ensures Sum(GapCount, ops + [op]) == Sum(GapCount, ops) + GapCount(op)
    ensures CounterOf(ops + [op]) == Bump(CounterOf(ops), KeyOf(op))
    ensures References(ops + [op]) == References(ops) + ReferenceOf(op)
  {
    var all := ops + [op];
    assert all[..|all| - 1] == ops;
  }

  lemma DeltaReasons(a: seq<Op>, b: seq<Op>)
    ensures Subtotals(CounterDifference(ReasonsOf(a + b), ReasonsOf(a))) == ReasonsOf(b)
  {
    var current, sent := ReasonsOf(a + b), ReasonsOf(a);
    var reasons := CounterDifference(current, sent);
    forall key ensures Get(reasons, key) == Get(CounterOf(b), key) {
      CountInPayload(a + b, key);
      CountInPayload(a, key);
      CounterConcat(a, b, key);
      if key !in reasons {
        CountInAbsent(current, key);
        CountInAbsent(sent, key);
      }
    }
    SubtotalsAgree(reasons, CounterOf(b));
  }

  /**
   The difference of two snapshots is the report of the operations between them; only
   the list of references may be shorter, by what the retention limit cut off.
   */
  lemma DeltaIsLaterWork(a: seq<Op>, b: seq<Op>)
    ensures Delta(Payload(a + b), Payload(a)) == Trimmed(b, NewReferences(a, b))
  {
    var d := Delta(Payload(a + b), Payload(a));
    assert d.gaps == NewReferences(a, b);
    assert d.counts == CountsOf(b) && d.scope == Payload(b).scope
           && d.gapsOmitted == Sum(GapCount, b) - |d.gaps| by {
      CountsConcat(a, b);
    }
    assert d.reasons == ReasonsOf(b) by {
      DeltaReasons(a, b);
    }
  }

  lemma MergeReasons(p: seq<Op>, q: seq<Op>)
    ensures Subtotals(CounterSum(ReasonsOf(p), ReasonsOf(q))) == ReasonsOf(p + q)
  {
    var left, right := ReasonsOf(p), ReasonsOf(q);
    var reasons := CounterSum(left, right);
    forall key ensures Get(reasons, key) == Get(CounterOf(p + q), key) {
      CountInPayload(p, key);
      CountInPayload(q, key);
      CounterConcat(p, q, key);
      if key !in reasons {
        CountInAbsent(left, key);
        CountInAbsent(right, key);
      }
    }
    SubtotalsAgree(reasons, CounterOf(p + q));
  }

  /** Keeping up to a limit in turn keeps what keeping at once does. */
  lemma TakeInTurn<T>(p: seq<T>, a: seq<T>, b: seq<T>, limit: nat)
    ensures Take(Take(p + a, limit) + Take(a + b, limit)[|Take(a, limit)|..], limit) == Take(p + a + b, limit)
  {
    var more := Take(a + b, limit)[|Take(a, limit)|..];
    if |p + a| < limit {
      assert more == b[..|more|];
      assert |more| == |b| || |p + a| + |more| >= limit;
    }
  }

  lemma MergeReferences(p: seq<Op>, a: seq<Op>, b: seq<Op>)
    ensures Take(Retained(p + a) + NewReferences(a, b), GAP_LIMIT) == Retained(p + a + b)
  {
    ReferencesConcat(p, a);
    ReferencesConcat(p + a, b);
    ReferencesConcat(a, b);
    TakeInTurn(References(p), References(a), References(b), GAP_LIMIT);
  }

  /**
   Accumulating differences reproduces the report of the whole task. `p` is what earlier
   attempts had accepted, `a` what this attempt had accepted, `b` what the new batch adds;
   the law holds on both sides of the retention limit and for truncated units.
   */
  lemma MergeOfDeltaIsWhole(p: seq<Op>, a: seq<Op>, b: seq<Op>)
    ensures Merge(Some(Payload(p + a)), Delta(Payload(a + b), Payload(a))) == Payload(p + a + b)
  {
    DeltaIsLaterWork(a, b);
    CountsConcat(p + a, b);
    MergeReasons(p + a, b);
    MergeReferences(p, a, b);
  }

  /** The report of a fetch that has recorded nothing. */
  function EmptyReport(): Report {
    Report(Fetch, Counts(0, 0, 0, 0, 0), Scope(None, 0, 0), [], [], 0)
  }

  lemma PayloadOfNothing(ops: seq<Op>)
    requires |ops| == 0
    ensures Payload(ops) == EmptyReport()
  {
    assert Positive(CounterOf(ops)) == map[];
  }

  /** A first report is the difference against the empty coverage a fetch starts from. */
  lemma FirstDeltaIsPayload(b: seq<Op>)
    ensures Delta(Payload(b), EmptyReport()) == Payload(b)
  {
    var nothing := b[..0];
    assert nothing + b == b;
    PayloadOfNothing(nothing);
    DeltaIsLaterWork(nothing, b);
    assert Delta(Payload(b), EmptyReport()).gaps == Retained(b);
  }

  /** Reports of consecutive work accumulate to the report of all of it. */
  lemma MergePayloads(p: seq<Op>, q: seq<Op>)
    ensures Merge(Some(Payload(p)), Payload(q)) == Payload(p + q)
  {
    var nothing := q[..0];
    assert nothing + q == q && p + nothing == p;
    PayloadOfNothing(nothing);
    FirstDeltaIsPayload(q);
    MergeOfDeltaIsWhole(p, nothing, q);
  }

  lemma SingleSubtotal(counter: Counter, key: Key)
    requires counter == map[key := 1]
    ensures Subtotals(counter) == [Subtotal(key, 1)]
  {
    assert Positive(counter) == counter && counter.Keys == {key};
    assert key in counter && First(counter.Keys) == key;
    var rest := counter - {key};
    assert rest == map[];
    assert Listed(rest) == [];
  }

  /** The report of a single loss that names no object. */
  lemma PayloadOfTaskLoss(ops: seq<Op>, reason: Reason)
    requires ops == [TaskLoss(reason, None)]
    ensures Payload(ops) == Report(Fetch, Counts(0, 0, 0, 0, 0), Scope(None, 0, 1),
                                   [Subtotal(Key(ScopeGap, reason), 1)], [], 1)
  {
    var before := ops[..0];
    assert ops[..|ops| - 1] == before;
    var key := Key(ScopeGap, reason);
    assert CounterOf(before) == map[] && CounterOf(ops) == map[key := 1];
    SingleSubtotal(CounterOf(ops), key);
    assert References(ops) == References(before) + ReferenceOf(ops[0]) == [];
    assert CountsOf(before) == Counts(0, 0, 0, 0, 0) == CountsOf(ops);
    assert Sum(ScopeGaps, before) == 0 && Sum(ScopeGaps, ops) == 1;
    assert Sum(GapCount, before) == 0 && Sum(GapCount, ops) == 1;
  }

  // ----- which differences the API accepts -----

  lemma {:induction false} OutcomesReconcile(ops: seq<Op>)
    ensures Sum(Observed, ops) == Sum(Scanned, ops) + Sum(SkippedObjects, ops) + Sum(FailedObjects, ops)
    ensures Sum(GapCount, ops) == Sum(SkippedObjects, ops) + Sum(FailedObjects, ops) + Sum(ScopeGaps, ops)
    ensures Sum(Observed, ops) >= 0 && Sum(SkippedObjects, ops) >= 0
    ensures Sum(FailedObjects, ops) >= 0 && Sum(ScopeGaps, ops) >= 0
  {
    if ops != [] {
      OutcomesReconcile(ops[..|ops| - 1]);
    }
  }

  /** A bump changes one entry only. */
  lemma BumpedApart(counter: Counter, key: Key)
    requires Get(counter, key) >= 0
    ensures var before, after := Positive(counter), Positive(Bump(counter, Some(key)));
            && key in after && after[key] == Get(counter, key) + 1
            && (key in before ==> before[key] == Get(counter, key) && after - {key} == before - {key})
            && (key !in before ==> Get(counter, key) == 0 && after - {key} == before)
  {
  }

  lemma BumpTotal(counter: Counter, key: Key, outcome: Disposition)
    requires Get(counter, key) >= 0
    ensures Sum(OutcomeWeight(outcome), Subtotals(Bump(counter, Some(key)))) ==
            Sum(OutcomeWeight(outcome), Subtotals(counter)) + (if key.outcome == outcome then 1 else 0)
  {
    BumpedApart(counter, key);
    TakeOut(OutcomeWeight(outcome), Positive(Bump(counter, Some(key))), key);
    if key in Positive(counter) {
      TakeOut(OutcomeWeight(outcome), Positive(counter), key);
    }
  }

  /** How many operations ended with a given disposition. */
  function EndedAs(outcome: Disposition): Op -> int {
    (op: Op) => if KeyOf(op).Some? && KeyOf(op).value.outcome == outcome then 1 else 0
  }

  lemma {:induction false} OutcomeTotals(ops: seq<Op>, outcome: Disposition)
    ensures Sum(OutcomeWeight(outcome), ReasonsOf(ops)) == Sum(EndedAs(outcome), ops)
  {
    if ops == [] {
      assert Positive(CounterOf(ops)) == map[];
    } else {
      var before, last := ops[..|ops| - 1], KeyOf(ops[|ops| - 1]);
      OutcomeTotals(before, outcome);
      if last.Some? {
        CounterNonNegative(before, last.value);
        BumpTotal(CounterOf(before), last.value, outcome);
      }
    }
  }

  lemma {:induction false} EndedAsCounts(ops: seq<Op>)
    ensures Sum(EndedAs(Skipped), ops) == Sum(SkippedObjects, ops)
    ensures Sum(EndedAs(Failed), ops) == Sum(FailedObjects, ops)
    ensures Sum(EndedAs(ScopeGap), ops) == Sum(ScopeGaps, ops)
  {
    if ops != [] {
      EndedAsCounts(ops[..|ops| - 1]);
    }
  }

  lemma {:induction false} CountedKeyAllowed(ops: seq<Op>, key: Key)
    requires AllAllowed(ops)
    requires Get(CounterOf(ops), key) > 0
    ensures ReasonAllowed(key.outcome, key.reason)
  {
    var before, last := ops[..|ops| - 1], ops[|ops| - 1];
    assert OpAllowed(last);
    if KeyOf(last) != Some(key) {
      CountedKeyAllowed(before, key);
    }
  }

  lemma ReasonsAccepted(ops: seq<Op>)
    requires AllAllowed(ops)
    ensures ReasonsWellFormed(ReasonsOf(ops))
  {
    var list, counter := ReasonsOf(ops), Positive(CounterOf(ops));
    ListedInOrder(counter);
    forall i | 0 <= i < |list|
      ensures list[i].count > 0 && ReasonAllowed(list[i].key.outcome, list[i].key.reason)
    {
      assert list[i].key in counter;
      CountedKeyAllowed(ops, list[i].key);
    }
    forall i, j | 0 <= i < j < |list| ensures list[i].key != list[j].key {
      BeforeIsTotal(list[i].key, list[j].key);
    }
  }

  lemma {:induction false} SumMonotone<T>(weight: T -> int, s: seq<T>, n: nat)
    requires n <= |s|
    requires forall i :: 0 <= i < |s| ==> weight(s[i]) >= 0
    ensures Sum(weight, s[..n]) <= Sum(weight, s)
  {
    if n == |s| {
      assert s[..n] == s;
    } else {
      var before := s[..|s| - 1];
      assert before[..n] == s[..n];
      SumMonotone(weight, before, n);
    }
  }

  lemma {:induction false} ReferencesCounted(ops: seq<Op>, key: Key)
    ensures Sum(GapWeight(key), References(ops)) <= Get(CounterOf(ops), key)
  {
    if ops != [] {
      var before, last := ops[..|ops| - 1], ops[|ops| - 1];
      ReferencesCounted(before, key);
      SumConcat(GapWeight(key), References(before), ReferenceOf(last));
      if ReferenceOf(last) != [] {
        assert ReferenceOf(last)[..0] == [];
      }
    }
  }

  lemma PrefixWithinSubtotals(ops: seq<Op>, gaps: seq<Gap>, i: nat)
    requires gaps <= References(ops)
    requires i < |gaps|
    ensures exists j :: 0 <= j < |ReasonsOf(ops)| && ReasonsOf(ops)[j].key == gaps[i].key
    ensures Sum(GapWeight(gaps[i].key), gaps) <= CountIn(ReasonsOf(ops), gaps[i].key)
  {
    var key, all := gaps[i].key, References(ops);
    assert gaps == all[..|gaps|];
    SumMonotone(GapWeight(key), all, |gaps|);
    ReferencesCounted(ops, key);
    CountInPayload(ops, key);
    assert Sum(GapWeight(key), gaps) >= 1 by {
      SumMonotone(GapWeight(key), gaps, i + 1);
      assert gaps[..i + 1][..i] == gaps[..i];
      SumMonotone(GapWeight(key), gaps[..i], 0);
    }
    if key !in KeysOf(ReasonsOf(ops)) {
      CountInAbsent(ReasonsOf(ops), key);
    }
  }

  lemma {:induction false} ReferencesAreDigests(ops: seq<Op>)
    requires AllAllowed(ops)
    ensures forall i :: 0 <= i < |References(ops)| ==> IsDigest(References(ops)[i].reference)
  {
    if ops != [] {
      var last := ops[|ops| - 1];
      assert OpAllowed(last);
      ReferencesAreDigests(ops[..|ops| - 1]);
    }
  }

  lemma CountsAccepted(ops: seq<Op>)
    ensures CountsReconcile(CountsOf(ops)) <==> Sum(Scanned, ops) >= 0
  {
    OutcomesReconcile(ops);
  }

  lemma TrimmedTotals(ops: seq<Op>, gaps: seq<Gap>)
    requires gaps <= References(ops)
    ensures TotalsReconcile(Trimmed(ops, gaps))
  {
    OutcomesReconcile(ops);
    EndedAsCounts(ops);
    ReferencesBounded(ops);
    OutcomeTotals(ops, Skipped);
    OutcomeTotals(ops, Failed);
    OutcomeTotals(ops, ScopeGap);
  }

  lemma TrimmedAccepted(ops: seq<Op>, gaps: seq<Gap>)
    requires AllAllowed(ops)
    requires gaps <= References(ops) && |gaps| <= GAP_LIMIT
    ensures Valid(Trimmed(ops, gaps)) <==>
            Sum(Scanned, ops) >= 0 && forall i :: 0 <= i < |gaps| ==> GapKindMatches(gaps[i])
  {
    var r := Trimmed(ops, gaps);
    CountsAccepted(ops);
    assert ScopeReconciles(r.scope) by { OutcomesReconcile(ops); }
    ReasonsAccepted(ops);
    assert GapsWellFormed(gaps) <==> forall i :: 0 <= i < |gaps| ==> GapKindMatches(gaps[i]) by {
      ReferencesAreDigests(ops);
    }
    TrimmedTotals(ops, gaps);
    assert GapsWithinSubtotals(r) by {
      forall i | 0 <= i < |r.gaps|
        ensures && (exists j :: 0 <= j < |r.reasons| && r.reasons[j].key == r.gaps[i].key)
                && Sum(GapWeight(r.gaps[i].key), r.gaps) <= CountIn(r.reasons, r.gaps[i].key)
      {
        PrefixWithinSubtotals(ops, gaps, i);
      }
    }
  }

  /**
   Exactly when the API accepts a difference: the later operations must not take back more
   scans than they record, and no retained object reference may use the scope kind.
   */
  lemma DeltaAcceptedIff(a: seq<Op>, b: seq<Op>)
    requires AllAllowed(b)
    ensures Valid(Delta(Payload(a + b), Payload(a))) <==>
            && Sum(Scanned, b) >= 0
            && forall i :: 0 <= i < |NewReferences(a, b)| ==> GapKindMatches(NewReferences(a, b)[i])
  {
    DeltaIsLaterWork(a, b);
    NewReferencesFit(a, b);
    TrimmedAccepted(b, NewReferences(a, b));
  }

  lemma NewReferencesFit(a: seq<Op>, b: seq<Op>)
    ensures |NewReferences(a, b)| <= GAP_LIMIT
  {
  }

  /** An object operation must not claim the kind reserved for scopes. */
  predicate NamesObject(op: Op) {
    op.Skip? || op.Fail? || op.Truncate? ==> !op.kind.ScopeKind?
  }

  predicate AllNameObjects(ops: seq<Op>) {
    forall i :: 0 <= i < |ops| ==> NamesObject(ops[i])
  }

  lemma {:induction false} ObjectKindsMatch(ops: seq<Op>)
    requires AllNameObjects(ops)
    ensures forall i :: 0 <= i < |References(ops)| ==> GapKindMatches(References(ops)[i])
  {
    if ops != [] {
      var last := ops[|ops| - 1];
      assert NamesObject(last);
      ObjectKindsMatch(ops[..|ops| - 1]);
    }
  }

  /** Operations a task may record between two unit boundaries. */
  predicate WholeUnits(ops: seq<Op>) {
    AllAllowed(ops) && AllNameObjects(ops) && Sum(Scanned, ops) >= 0
  }

  lemma WholeUnitsConcat(a: seq<Op>, b: seq<Op>)
    requires WholeUnits(a) && WholeUnits(b)
    ensures WholeUnits(a + b)
  {
    SumConcat(Scanned, a, b);
  }

  /** Every difference cut at unit boundaries passes every validator. */
  lemma DeltaOfWholeUnitsAccepted(a: seq<Op>, b: seq<Op>)
    requires WholeUnits(b)
    ensures Valid(Delta(Payload(a + b), Payload(a)))
  {
    DeltaAcceptedIff(a, b);
    ObjectKindsMatch(b);
  }

  /** A batch cut between a scan and its truncation would be refused. */
  lemma MidUnitCutRefused(a: seq<Op>, truncate: Op)
    requires truncate.Truncate? && OpAllowed(truncate)
    ensures !Valid(Delta(Payload(a + [truncate]), Payload(a)))
  {
    var b := [truncate];
    assert b[..0] == [] && Sum(Scanned, b) == -1;
    DeltaAcceptedIff(a, b);
  }

  /**
   Exactly when a whole report is accepted. An object operation that claims the scope kind
   is recorded without complaint, and its retained reference alone makes the report refused.
   */
  lemma PayloadAcceptedIff(ops: seq<Op>)
    requires AllAllowed(ops)
    ensures Valid(Payload(ops)) <==>
            && Sum(Scanned, ops) >= 0
            && forall i :: 0 <= i < |Retained(ops)| ==> GapKindMatches(Retained(ops)[i])
  {
    TrimmedAccepted(ops, Retained(ops));
    assert Trimmed(ops, Retained(ops)) == Payload(ops);
  }

  /** The report every accepted task ends with: all its operations cut at unit boundaries. */
  lemma PayloadAccepted(ops: seq<Op>)
    requires WholeUnits(ops)
    ensures Valid(Payload(ops))
  {
    PayloadAcceptedIff(ops);
    ObjectKindsMatch(ops);
  }
}
