/**
 Deterministic identities: window, execution and event identities determine what they were built
 from, and a scenario that passes the startup budget never produces one over the contract bound.
 Strings are sequences of bytes.
 */
module Identity {
  import opened Common

  const MAX_ID_BYTES: nat := 1024
  const MAX_AUTO_SLICES: nat := 128
  const MAX_ATTEMPT: nat := 32
  const VERSION: nat := 2
  const U64_MAX: nat := 0xFFFF_FFFF_FFFF_FFFF
  const U128_MAX: nat := 0xFFFF_FFFF_FFFF_FFFF_FFFF_FFFF_FFFF_FFFF

  predicate IsDigit(c: char) {
    '0' <= c <= '9'
  }

  function Digit(n: nat): (c: char)
    requires n < 10
    ensures IsDigit(c)
  {
    '0' + n as char
  }

  function Decimal(n: nat): (s: string)
    ensures |s| >= 1 && forall i :: 0 <= i < |s| ==> IsDigit(s[i])
  {
    if n < 10 then [Digit(n)] else Decimal(n / 10) + [Digit(n % 10)]
  }

  function DigitValue(c: char): nat
    requires IsDigit(c)
  {
    c as int - '0' as int
  }

  function Value(s: string): nat
    requires forall i :: 0 <= i < |s| ==> IsDigit(s[i])
  {
    if s == [] then 0 else 10 * Value(s[..|s| - 1]) + DigitValue(s[|s| - 1])
  }

  lemma {:induction false} DecimalValue(n: nat)
    ensures Value(Decimal(n)) == n
  {
    if n >= 10 {
      DecimalValue(n / 10);
      assert Decimal(n)[..|Decimal(n)| - 1] == Decimal(n / 10);
    } else {
      assert Decimal(n)[..0] == [];
    }
  }

  lemma {:induction false} DecimalGrows(m: nat, n: nat)
    requires m <= n
    ensures |Decimal(m)| <= |Decimal(n)|
  {
    if m >= 10 {
      DecimalGrows(m / 10, n / 10);
    }
  }

  // ---- Unique reading --------------------------------------------------------------------------

  /** `s` starts with something that is not a digit. */
  predicate Stops(s: string) {
    s != [] && !IsDigit(s[0])
  }

  /** A number followed by a non-digit (or by nothing) can be read in one way only. */
  lemma DecimalPrefix(m: nat, x: string, n: nat, y: string)
    requires Decimal(m) + x == Decimal(n) + y && (x == [] || Stops(x)) && (y == [] || Stops(y))
    ensures m == n && x == y
  {
    var a, b := Decimal(m), Decimal(n);
    var s := a + x;
    assert x != [] ==> s[|a|] == x[0];
    assert y != [] ==> s[|b|] == y[0];
    assert (forall i :: 0 <= i < |a| ==> IsDigit(s[i])) && forall i :: 0 <= i < |b| ==> s[i] == b[i] && IsDigit(s[i]);
    SplitEqual(a, x, b, y);
    DecimalValue(m);
    DecimalValue(n);
  }

  lemma SplitEqual(a: string, x: string, b: string, y: string)
    requires a + x == b + y && |a| == |b|
    ensures a == b && x == y
  {
    assert a == (a + x)[..|a|] && b == (b + y)[..|b|];
    assert x == (a + x)[|a|..] && y == (b + y)[|b|..];
  }

  // ---- Windows and executions --------------------------------------------------------------------

  datatype Window = Window(version: nat, scenario: string, at: nat, total: nat)

  /** The part of a window identity after the scenario. */
  function TimePart(w: Window, rest: string): string {
    ":w" + (Decimal(w.at) + (":n" + (Decimal(w.total) + rest)))
  }

  function ScenarioPart(w: Window, rest: string): string {
    ":s" + (Decimal(|w.scenario|) + (":" + (w.scenario + TimePart(w, rest))))
  }

  /** A window identity followed by `rest`. */
  function WindowIdThen(w: Window, rest: string): string {
    "v" + (Decimal(w.version) + ScenarioPart(w, rest))
  }

  function WindowId(w: Window): string {
    WindowIdThen(w, "")
  }

  function SlicePart(index: nat, total: nat, rest: string): string {
    ":slice-" + (Decimal(index) + ("-of-" + (Decimal(total) + rest)))
  }

  function ExecutionKey(w: Window, index: nat): string {
    WindowIdThen(w, SlicePart(index, w.total, ""))
  }

  function EventId(w: Window, index: nat, attempt: nat, kind: string): string {
    WindowIdThen(w, SlicePart(index, w.total, ":attempt-" + (Decimal(attempt) + (":" + kind))))
  }

  function SummaryId(w: Window, revision: nat, status: string): string {
    WindowIdThen(w, ":summary:r" + (Decimal(revision) + (":" + status)))
  }

  lemma TimePartReads(v: Window, x: string, w: Window, y: string)
    requires TimePart(v, x) == TimePart(w, y) && (x == [] || Stops(x)) && (y == [] || Stops(y))
    ensures v.at == w.at && v.total == w.total && x == y
  {
    SplitEqual(":w", Decimal(v.at) + (":n" + (Decimal(v.total) + x)), ":w", Decimal(w.at) + (":n" + (Decimal(w.total) + y)));
    DecimalPrefix(v.at, ":n" + (Decimal(v.total) + x), w.at, ":n" + (Decimal(w.total) + y));
    SplitEqual(":n", Decimal(v.total) + x, ":n", Decimal(w.total) + y);
    DecimalPrefix(v.total, x, w.total, y);
  }

  lemma ScenarioPartReads(v: Window, x: string, w: Window, y: string)
    requires ScenarioPart(v, x) == ScenarioPart(w, y) && (x == [] || Stops(x)) && (y == [] || Stops(y))
    ensures v.scenario == w.scenario && v.at == w.at && v.total == w.total && x == y
  {
    var tv, tw := v.scenario + TimePart(v, x), w.scenario + TimePart(w, y);
    SplitEqual(":s", Decimal(|v.scenario|) + (":" + tv), ":s", Decimal(|w.scenario|) + (":" + tw));
    DecimalPrefix(|v.scenario|, ":" + tv, |w.scenario|, ":" + tw);
    SplitEqual(":", tv, ":", tw);
    SplitEqual(v.scenario, TimePart(v, x), w.scenario, TimePart(w, y));
    TimePartReads(v, x, w, y);
  }

  /** A window identity and whatever non-digit text follows it determine the window and the text. */
  lemma WindowReads(v: Window, x: string, w: Window, y: string)
    requires WindowIdThen(v, x) == WindowIdThen(w, y) && (x == [] || Stops(x)) && (y == [] || Stops(y))
    ensures v == w && x == y
  {
    SplitEqual("v", Decimal(v.version) + ScenarioPart(v, x), "v", Decimal(w.version) + ScenarioPart(w, y));
    DecimalPrefix(v.version, ScenarioPart(v, x), w.version, ScenarioPart(w, y));
    ScenarioPartReads(v, x, w, y);
  }

  lemma SlicePartReads(i: nat, m: nat, x: string, j: nat, n: nat, y: string)
    requires SlicePart(i, m, x) == SlicePart(j, n, y) && (x == [] || Stops(x)) && (y == [] || Stops(y))
    ensures i == j && m == n && x == y
  {
    SplitEqual(":slice-", Decimal(i) + ("-of-" + (Decimal(m) + x)), ":slice-", Decimal(j) + ("-of-" + (Decimal(n) + y)));
    DecimalPrefix(i, "-of-" + (Decimal(m) + x), j, "-of-" + (Decimal(n) + y));
    SplitEqual("-of-", Decimal(m) + x, "-of-", Decimal(n) + y);
    DecimalPrefix(m, x, n, y);
  }

  /** Window and execution identities determine version, scenario, time, slice count and index. */
  lemma ExecutionKeysAreInjective(v: Window, i: nat, w: Window, j: nat)
    ensures WindowId(v) == WindowId(w) ==> v == w
    ensures ExecutionKey(v, i) == ExecutionKey(w, j) ==> v == w && i == j
    ensures WindowId(v) != ExecutionKey(w, j)
  {
    if WindowId(v) == WindowId(w) {
      WindowReads(v, "", w, "");
    }
    if ExecutionKey(v, i) == ExecutionKey(w, j) {
      WindowReads(v, SlicePart(i, v.total, ""), w, SlicePart(j, w.total, ""));
      SlicePartReads(i, v.total, "", j, w.total, "");
    }
    if WindowId(v) == ExecutionKey(w, j) {
      WindowReads(v, "", w, SlicePart(j, w.total, ""));
    }
  }

  /** Terminal event identities also determine the attempt and the kind of event. */
  lemma EventIdsAreInjective(v: Window, i: nat, a: nat, kind: string, w: Window, j: nat, b: nat, kind': string)
    requires EventId(v, i, a, kind) == EventId(w, j, b, kind')
    ensures v == w && i == j && a == b && kind == kind'
  {
    var x, y := ":attempt-" + (Decimal(a) + (":" + kind)), ":attempt-" + (Decimal(b) + (":" + kind'));
    WindowReads(v, SlicePart(i, v.total, x), w, SlicePart(j, w.total, y));
    SlicePartReads(i, v.total, x, j, w.total, y);
    SplitEqual(":attempt-", Decimal(a) + (":" + kind), ":attempt-", Decimal(b) + (":" + kind'));
    DecimalPrefix(a, ":" + kind, b, ":" + kind');
    SplitEqual(":", kind, ":", kind');
  }

  lemma SummaryIdsAreInjective(v: Window, r: nat, status: string, w: Window, q: nat, status': string)
    requires SummaryId(v, r, status) == SummaryId(w, q, status')
    ensures v == w && r == q && status == status'
  {
    var x, y := ":summary:r" + (Decimal(r) + (":" + status)), ":summary:r" + (Decimal(q) + (":" + status'));
    WindowReads(v, x, w, y);
    SplitEqual(":summary:r", Decimal(r) + (":" + status), ":summary:r", Decimal(q) + (":" + status'));
    DecimalPrefix(r, ":" + status, q, ":" + status');
    SplitEqual(":", status, ":", status');
  }

  // ---- Replayed records --------------------------------------------------------------------------

  /** `topic` is the topic in URL-safe base64, `event` the 32 hex digits of the failed event's hash. */
  datatype Replay = Replay(topic: string, partition: nat, offset: nat, event: string)

  predicate ValidReplay(r: Replay) {
    ':' !in r.topic && |r.event| == 32
  }

  const MAX_TOPIC_BYTES: nat := 249
  const I32_MAX: nat := 0x7FFF_FFFF
  const I64_MAX: nat := 0x7FFF_FFFF_FFFF_FFFF

  /** The length of unpadded base64. */
  function EncodedLength(bytes: nat): nat {
    (4 * bytes + 2) / 3
  }

  /** What the source checks of replay coordinates: a Kafka topic name, an `i32` partition, an `i64` offset. */
  predicate SourceReplay(r: Replay, topicBytes: nat) {
    && ValidReplay(r) && topicBytes <= MAX_TOPIC_BYTES && |r.topic| == EncodedLength(topicBytes)
    && r.partition <= I32_MAX && r.offset <= I64_MAX
  }

  function ReplayExecutionKey(r: Replay): string {
    ReplayRunId(r) + ":slice-0-of-1"
  }

  function Pow10(d: nat): (p: nat)
    ensures p >= 1
  {
    if d == 0 then 1 else 10 * Pow10(d - 1)
  }

  lemma {:induction false} DecimalLength(n: nat, d: nat)
    requires d >= 1 && n < Pow10(d)
    ensures |Decimal(n)| <= d
    decreases d
  {
    if n >= 10 {
      assert d > 1 by {
        assert Pow10(1) == 10 * Pow10(0);
      }
      assert n / 10 < Pow10(d - 1);
      DecimalLength(n / 10, d - 1);
    }
  }

  lemma WidestCoordinates()
    ensures I32_MAX < Pow10(10) && I64_MAX < Pow10(19)
  {
    assert Pow10(5) == 100_000;
    assert Pow10(10) == 10_000_000_000;
    assert Pow10(15) == 1_000_000_000_000_000;
    assert Pow10(19) == 10_000_000_000_000_000_000;
  }

  /** Replay identities never exceed the contract bound, so the length test before replaying never fires. */
  lemma ReplayIdsFit(r: Replay, topicBytes: nat)
    requires SourceReplay(r, topicBytes)
    ensures |ReplayRunId(r)| <= 410 && |ReplayExecutionKey(r)| <= 423 <= MAX_ID_BYTES
  {
    WidestCoordinates();
    DecimalLength(r.partition, 10);
    DecimalLength(r.offset, 19);
  }

  function ReplayRunId(r: Replay): string {
    "v2:replay:t" + (r.topic + (":p" + (Decimal(r.partition) + (":o" + (Decimal(r.offset) + (":e" + r.event))))))
  }

  /** Text without a colon, up to the first colon, can be read in one way only. */
  lemma ColonPrefix(a: string, x: string, b: string, y: string)
    requires a + x == b + y && ':' !in a && ':' !in b && x != [] && y != [] && x[0] == ':' == y[0]
    ensures a == b && x == y
  {
    var s := a + x;
    assert s[|a|] == ':' && s[|b|] == ':';
    assert (forall i :: 0 <= i < |a| ==> s[i] != ':') && forall i :: 0 <= i < |b| ==> s[i] == b[i] && s[i] != ':';
    SplitEqual(a, x, b, y);
  }

  /** A replay run identity determines the source coordinates it was built from. */
  lemma ReplayIdsAreInjective(r: Replay, q: Replay)
    requires ValidReplay(r) && ValidReplay(q) && ReplayRunId(r) == ReplayRunId(q)
    ensures r == q
  {
    var er, eq := ":e" + r.event, ":e" + q.event;
    var or, oq := ":o" + (Decimal(r.offset) + er), ":o" + (Decimal(q.offset) + eq);
    var pr, pq := ":p" + (Decimal(r.partition) + or), ":p" + (Decimal(q.partition) + oq);
    SplitEqual("v2:replay:t", r.topic + pr, "v2:replay:t", q.topic + pq);
    ColonPrefix(r.topic, pr, q.topic, pq);
    SplitEqual(":p", Decimal(r.partition) + or, ":p", Decimal(q.partition) + oq);
    DecimalPrefix(r.partition, or, q.partition, oq);
    SplitEqual(":o", Decimal(r.offset) + er, ":o", Decimal(q.offset) + eq);
    DecimalPrefix(r.offset, er, q.offset, eq);
    SplitEqual(":e", r.event, ":e", q.event);
  }

  /** A replayed run never takes the identity of a scheduled one. */
  lemma ReplayIsNeverAWindow(r: Replay, w: Window)
    ensures ReplayRunId(r) != WindowId(w)
  {
    var rest := r.topic + (":p" + (Decimal(r.partition) + (":o" + (Decimal(r.offset) + (":e" + r.event)))));
    assert (":replay:t" + rest)[1] == 'r' && ScenarioPart(w, "")[1] == 's';
    if ReplayRunId(r) == WindowId(w) {
      assert ReplayRunId(r) == "v" + ("2" + (":replay:t" + rest));
      assert Decimal(2) == "2";
      SplitEqual("v", Decimal(2) + (":replay:t" + rest), "v", Decimal(w.version) + ScenarioPart(w, ""));
      DecimalPrefix(2, ":replay:t" + rest, w.version, ScenarioPart(w, ""));
    }
  }

  // ---- The startup budget ----------------------------------------------------------------------

  predicate AllWithinBound(w: Window, index: nat, attempt: nat, kind: string, revision: nat, status: string) {
    && |WindowId(w)| <= MAX_ID_BYTES && |ExecutionKey(w, index)| <= MAX_ID_BYTES
    && |EventId(w, index, attempt, kind)| <= MAX_ID_BYTES && |SummaryId(w, revision, status)| <= MAX_ID_BYTES
  }

  /** validate_scenario_identity_budget: the widest identities fit the bound. */
  predicate FitsBudget(scenario: string) {
    && 0 < |scenario| <= MAX_ID_BYTES
    && AllWithinBound(Window(VERSION, scenario, U128_MAX, MAX_AUTO_SLICES), MAX_AUTO_SLICES - 1, MAX_ATTEMPT, "result", U64_MAX, "timed-out")
  }

  predicate StatusLabel(s: string) {
    s == "partial" || s == "complete" || s == "timed-out" || s == "cancelled"
  }

  lemma WindowLength(w: Window, x: string, wide: Window, y: string)
    requires w.scenario == wide.scenario && w.version <= wide.version && w.at <= wide.at && w.total <= wide.total && |x| <= |y|
    ensures |WindowIdThen(w, x)| <= |WindowIdThen(wide, y)|
  {
    DecimalGrows(w.version, wide.version);
    DecimalGrows(w.at, wide.at);
    DecimalGrows(w.total, wide.total);
  }

  lemma SliceLength(i: nat, n: nat, x: string, j: nat, m: nat, y: string)
    requires i <= j && n <= m && |x| <= |y|
    ensures |SlicePart(i, n, x)| <= |SlicePart(j, m, y)|
  {
    DecimalGrows(i, j);
    DecimalGrows(n, m);
  }

  lemma ExecutionLength(w: Window, index: nat, x: string, wide: Window, last: nat, y: string)
    requires w.scenario == wide.scenario && w.version <= wide.version && w.at <= wide.at && w.total <= wide.total
    requires index <= last && |x| <= |y|
    ensures |WindowIdThen(w, SlicePart(index, w.total, x))| <= |WindowIdThen(wide, SlicePart(last, wide.total, y))|
  {
    SliceLength(index, w.total, x, last, wide.total, y);
    WindowLength(w, SlicePart(index, w.total, x), wide, SlicePart(last, wide.total, y));
  }

  lemma EventLength(w: Window, index: nat, attempt: nat, kind: string, wide: Window, last: nat, most: nat,
                    widest: string)
    requires w.scenario == wide.scenario && w.version <= wide.version && w.at <= wide.at && w.total <= wide.total
    requires index <= last && attempt <= most && |kind| <= |widest|
    ensures |EventId(w, index, attempt, kind)| <= |EventId(wide, last, most, widest)|
  {
    DecimalGrows(attempt, most);
    ExecutionLength(w, index, ":attempt-" + (Decimal(attempt) + (":" + kind)), wide, last, ":attempt-" + (Decimal(most) + (":" + widest)));
  }

  lemma SummaryLength(w: Window, revision: nat, status: string, wide: Window, most: nat, widest: string)
    requires w.scenario == wide.scenario && w.version <= wide.version && w.at <= wide.at && w.total <= wide.total
    requires revision <= most && |status| <= |widest|
    ensures |SummaryId(w, revision, status)| <= |SummaryId(wide, most, widest)|
  {
    DecimalGrows(revision, most);
    WindowLength(w, ":summary:r" + (Decimal(revision) + (":" + status)), wide, ":summary:r" + (Decimal(most) + (":" + widest)));
  }

  lemma NarrowerIsWithinBound(w: Window, index: nat, attempt: nat, kind: string, revision: nat, status: string,
                              wide: Window, last: nat, most: nat, widest: string, latest: nat, longest: string)
    requires AllWithinBound(wide, last, most, widest, latest, longest)
    requires w.scenario == wide.scenario && w.version <= wide.version && w.at <= wide.at && w.total <= wide.total
    requires index <= last && attempt <= most && |kind| <= |widest| && revision <= latest && |status| <= |longest|
    ensures AllWithinBound(w, index, attempt, kind, revision, status)
  {
    WindowLength(w, "", wide, "");
    ExecutionLength(w, index, "", wide, last, "");
    EventLength(w, index, attempt, kind, wide, last, most, widest);
    SummaryLength(w, revision, status, wide, latest, longest);
  }

  /** A scenario within the budget never produces an identity over the contract bound. */
  lemma BudgetBoundsEveryIdentity(w: Window, index: nat, attempt: nat, kind: string, revision: nat, status: string)
    requires FitsBudget(w.scenario) && w.version == VERSION && w.at <= U128_MAX && index < w.total <= MAX_AUTO_SLICES
    requires attempt <= MAX_ATTEMPT && (kind == "result" || kind == "dlq") && revision <= U64_MAX && StatusLabel(status)
    ensures AllWithinBound(w, index, attempt, kind, revision, status)
  {
    NarrowerIsWithinBound(w, index, attempt, kind, revision, status,
                          Window(VERSION, w.scenario, U128_MAX, MAX_AUTO_SLICES), MAX_AUTO_SLICES - 1, MAX_ATTEMPT, "result", U64_MAX, "timed-out");
  }
}
