/** Aggregation of runtime telemetry per day, per tool and per session. The maps are the source's ordered
    maps without their order; whatever the order, no usage is lost or counted twice. */
module Diagnostics {
  import opened Numbers
  import opened Options
  import opened Sequences
  import opened Sorting
  import opened Usage

  const DAY_MS: nat := 86_400_000

  datatype InferenceKind = Turn | Compaction

  datatype InferenceMetric = InferenceMetric(
    kind: InferenceKind,
    startedAtMs: nat,
    durationMs: nat,
    estimatedInputTokens: nat,
    inputBytes: nat,
    outputBytes: nat,
    toolCallCount: nat,
    retryCount: nat,
    inputTokens: Option<nat>,
    cachedInputTokens: Option<nat>,
    cacheWriteTokens: Option<nat>,
    outputTokens: Option<nat>,
    failed: bool)

  datatype ToolMetric = ToolMetric(name: string, startedAtMs: nat, durationMs: nat, outputBytes: nat,
                                   modelOutputBytes: nat, failed: bool)

  datatype Session = Session(model: string, inference: seq<InferenceMetric>, tools: seq<ToolMetric>)

  /** A stored session; none when its text does not decode. */
  datatype StoredRow = StoredRow(provider: string, sessionId: string, session: Option<Session>)

  datatype ToolUsage = ToolUsage(provider: string, tool: string, calls: nat, failures: nat, fullOutputBytes: nat,
                                 modelOutputBytes: nat, durationMs: nat)

  datatype SessionUsage = SessionUsage(sessionId: string, provider: string, model: string, latestActivityMs: nat,
                                       totals: UsageTotals)

  datatype Report = Report(
    sessionsScanned: nat,
    totals: UsageTotals,
    daily: Daily,
    tools: seq<ToolUsage>,
    sessionsWithActivity: nat,
    sessions: seq<SessionUsage>)

  function Flag(b: bool): nat {
    if b then 1 else 0
  }

  function InferenceTotals(m: InferenceMetric): UsageTotals {
    ZERO[InferenceRounds := Flag(m.kind == Turn)]
      [CompactionRounds := Flag(m.kind == Compaction)]
      [FailedRounds := Flag(m.failed)]
      [RetryCount := m.retryCount]
      [EstimatedInputTokens := m.estimatedInputTokens]
      [ReportedInputTokens := m.inputTokens.GetOr(0)]
      [ReportedCachedInputTokens := m.cachedInputTokens.GetOr(0)]
      [ReportedCacheWriteTokens := m.cacheWriteTokens.GetOr(0)]
      [ReportedOutputTokens := m.outputTokens.GetOr(0)]
      [RequestBytes := m.inputBytes]
      [ResponseBytes := m.outputBytes]
      [InferenceDurationMs := m.durationMs]
      [RequestedToolCalls := m.toolCallCount]
  }

  function ToolTotals(m: ToolMetric): UsageTotals {
    ZERO[ExecutedToolCalls := 1]
      [FailedToolCalls := Flag(m.failed)]
      [FullToolOutputBytes := m.outputBytes]
      [ModelToolOutputBytes := m.modelOutputBytes]
      [ToolDurationMs := m.durationMs]
  }

  function OfTools(u: ToolUsage): UsageTotals {
    ZERO[ExecutedToolCalls := u.calls]
      [FailedToolCalls := u.failures]
      [FullToolOutputBytes := u.fullOutputBytes]
      [ModelToolOutputBytes := u.modelOutputBytes]
      [ToolDurationMs := u.durationMs]
  }

  const TOOL_COLUMNS := {ExecutedToolCalls, FailedToolCalls, FullToolOutputBytes, ModelToolOutputBytes, ToolDurationMs}

  /** The two totals agree on their tool columns. */
  ghost predicate SameTools(a: UsageTotals, b: UsageTotals) {
    forall c <- TOOL_COLUMNS :: a[c] == b[c]
  }

  function Itself(t: UsageTotals): UsageTotals {
    t
  }

  // ----- activity

  /** One measurement of a session. */
  datatype Activity = Inference(inference: InferenceMetric) | Use(use: ToolMetric) {
    function StartedAtMs(): nat {
      if Inference? then inference.startedAtMs else use.startedAtMs
    }

    function Totals(): UsageTotals {
      if Inference? then InferenceTotals(inference) else ToolTotals(use)
    }

    function Day(): nat {
      StartedAtMs() / DAY_MS
    }
  }

  function InferenceOf(ms: seq<InferenceMetric>): seq<Activity> {
    seq(|ms|, i requires 0 <= i < |ms| => Inference(ms[i]))
  }

  function UsesOf(ms: seq<ToolMetric>): seq<Activity> {
    seq(|ms|, i requires 0 <= i < |ms| => Use(ms[i]))
  }

  /** Everything a session measured: first its inference, then its tools. */
  function ActivityOf(s: Session): seq<Activity> {
    InferenceOf(s.inference) + UsesOf(s.tools)
  }

  /** The usage in the window. */
  function TotalsOf(done: seq<Activity>, since: nat): UsageTotals {
    if done == [] then ZERO
    else
      var last := done[|done| - 1];
      var before := TotalsOf(done[..|done| - 1], since);
      if last.StartedAtMs() < since then before else before + last.Totals()
  }

  /** What an activity counts in each column. */
  function Reading(a: Activity, c: Column): nat {
    match a
    case Inference(m) =>
      (match c
       case InferenceRounds => Flag(m.kind == Turn)
       case CompactionRounds => Flag(m.kind == Compaction)
       case FailedRounds => Flag(m.failed)
       case RetryCount => m.retryCount
       case EstimatedInputTokens => m.estimatedInputTokens
       case ReportedInputTokens => m.inputTokens.GetOr(0)
       case ReportedCachedInputTokens => m.cachedInputTokens.GetOr(0)
       case ReportedCacheWriteTokens => m.cacheWriteTokens.GetOr(0)
       case ReportedOutputTokens => m.outputTokens.GetOr(0)
       case RequestBytes => m.inputBytes
       case ResponseBytes => m.outputBytes
       case InferenceDurationMs => m.durationMs
       case RequestedToolCalls => m.toolCallCount
       case _ => 0)
    case Use(m) =>
      (match c
       case ExecutedToolCalls => 1
       case FailedToolCalls => Flag(m.failed)
       case FullToolOutputBytes => m.outputBytes
       case ModelToolOutputBytes => m.modelOutputBytes
       case ToolDurationMs => m.durationMs
       case _ => 0)
  }

  /** The readings of one column in the window, added up. */
  function ColumnOf(done: seq<Activity>, since: nat, c: Column): nat {
    if done == [] then 0
    else
      var last := done[|done| - 1];
      ColumnOf(done[..|done| - 1], since, c) + if last.StartedAtMs() >= since then Reading(last, c) else 0
  }

  lemma InferenceReading(m: InferenceMetric, c: Column)
    ensures InferenceTotals(m)[c] == Reading(Inference(m), c)
  {
  }

  lemma UseReading(m: ToolMetric, c: Column)
    ensures ToolTotals(m)[c] == Reading(Use(m), c)
  {
  }

  lemma ReadingOf(a: Activity, c: Column)
    ensures a.Totals()[c] == Reading(a, c)
  {
    match a
    case Inference(m) => InferenceReading(m, c);
    case Use(m) => UseReading(m, c);
  }

  /** Each column of the totals is the sum of its own readings. */
  lemma {:induction false} TotalsByColumn(done: seq<Activity>, since: nat, c: Column)
    ensures TotalsOf(done, since)[c] == ColumnOf(done, since, c)
  {
    if done != [] {
      TotalsByColumn(done[..|done| - 1], since, c);
      ReadingOf(done[|done| - 1], c);
    }
  }

  /** When the latest activity in the window started; zero when there is none. */
  function LatestOf(done: seq<Activity>, since: nat): nat {
    if done == [] then 0
    else
      var last := done[|done| - 1];
      var before := LatestOf(done[..|done| - 1], since);
      if last.StartedAtMs() < since || last.StartedAtMs() < before then before else last.StartedAtMs()
  }

  // ----- the books: usage per day and provider, and per tool

  type Daily = map<(nat, string), UsageTotals>
  type Tools = map<(string, string), ToolUsage>

  datatype Books = Books(daily: Daily, tools: Tools)

  function DayTotals(daily: Daily, key: (nat, string)): UsageTotals {
    if key in daily then daily[key] else ZERO
  }

  function ToolTotalsSoFar(tools: Tools, key: (string, string)): ToolUsage {
    if key in tools then tools[key] else Unused(key.0, key.1)
  }

  function Unused(provider: string, tool: string): ToolUsage {
    ToolUsage(provider, tool, 0, 0, 0, 0, 0)
  }

  function OneMore(u: ToolUsage, m: ToolMetric): ToolUsage {
    u.(calls := u.calls + 1,
       failures := u.failures + Flag(m.failed),
       fullOutputBytes := u.fullOutputBytes + m.outputBytes,
       modelOutputBytes := u.modelOutputBytes + m.modelOutputBytes,
       durationMs := u.durationMs + m.durationMs)
  }

  function AddDay(daily: Daily, provider: string, a: Activity): Daily {
    daily[(a.Day(), provider) := DayTotals(daily, (a.Day(), provider)) + a.Totals()]
  }

  function AddTool(tools: Tools, provider: string, m: ToolMetric): Tools {
    tools[(provider, m.name) := OneMore(ToolTotalsSoFar(tools, (provider, m.name)), m)]
  }

  /** Each activity is booked on its day, and a tool's on its tool. */
  function Book(b: Books, provider: string, a: Activity): Books {
    Books(AddDay(b.daily, provider, a), if a.Use? then AddTool(b.tools, provider, a.use) else b.tools)
  }

  function BookAll(b: Books, provider: string, done: seq<Activity>, since: nat): Books {
    if done == [] then b
    else
      var last := done[|done| - 1];
      var before := BookAll(b, provider, done[..|done| - 1], since);
      if last.StartedAtMs() < since then before else Book(before, provider, last)
  }

  // ----- the report over all rows

  predicate Wanted(row: StoredRow, filter: Option<string>) {
    filter.None? || filter.value == row.provider
  }

  predicate Counts(row: StoredRow, filter: Option<string>) {
    Wanted(row, filter) && row.session.Some?
  }

  /** What a wanted row measured. */
  function RowActivity(row: StoredRow, filter: Option<string>): seq<Activity> {
    if Counts(row, filter) then ActivityOf(row.session.value) else []
  }

  function AllUsage(rows: seq<StoredRow>, filter: Option<string>, since: nat): UsageTotals {
    if rows == [] then ZERO
    else AllUsage(rows[..|rows| - 1], filter, since) + TotalsOf(RowActivity(rows[|rows| - 1], filter), since)
  }

  function BookRows(rows: seq<StoredRow>, filter: Option<string>, since: nat): Books {
    if rows == [] then Books(map[], map[])
    else
      var last := rows[|rows| - 1];
      BookAll(BookRows(rows[..|rows| - 1], filter, since), last.provider, RowActivity(last, filter), since)
  }

  /** A session is listed with its usage in the window, unless its latest activity there started at zero. */
  function SessionReport(row: StoredRow, s: Session, since: nat): Option<SessionUsage> {
    var done := ActivityOf(s);
    if LatestOf(done, since) > 0
    then Some(SessionUsage(row.sessionId, row.provider, s.model, LatestOf(done, since), TotalsOf(done, since)))
    else None
  }

  function ListedSessions(rows: seq<StoredRow>, filter: Option<string>, since: nat): seq<SessionUsage> {
    if rows == [] then []
    else
      var last := rows[|rows| - 1];
      ListedSessions(rows[..|rows| - 1], filter, since)
      + if Counts(last, filter) && SessionReport(last, last.session.value, since).Some?
        then [SessionReport(last, last.session.value, since).value] else []
  }

  /** The latest activity is one of those in the window, and no other started later. */
  lemma {:induction false} LatestIsLast(done: seq<Activity>, since: nat)
    ensures forall a <- done :: a.StartedAtMs() >= since ==> a.StartedAtMs() <= LatestOf(done, since)
    ensures LatestOf(done, since) > 0 ==>
              exists a <- done :: since <= a.StartedAtMs() == LatestOf(done, since)
  {
    if done != [] {
      var before, last := done[..|done| - 1], done[|done| - 1];
      LatestIsLast(before, since);
      assert done == before + [last];
    }
  }

  /** The usage is that of a row: its session, provider and model, and what it did in the window. */
  predicate UsageOf(row: StoredRow, filter: Option<string>, since: nat, u: SessionUsage) {
    && Counts(row, filter) && u.sessionId == row.sessionId && u.provider == row.provider
    && u.model == row.session.value.model
    && u.latestActivityMs == LatestOf(RowActivity(row, filter), since) > 0
    && u.totals == TotalsOf(RowActivity(row, filter), since)
  }

  lemma ReportedIff(row: StoredRow, filter: Option<string>, since: nat, u: SessionUsage)
    ensures UsageOf(row, filter, since, u)
       <==> Counts(row, filter) && SessionReport(row, row.session.value, since) == Some(u)
  {
  }

  /** Listed is the usage of every row that was active in the window, and no other. */
  lemma {:induction false} ListedIff(rows: seq<StoredRow>, filter: Option<string>, since: nat, u: SessionUsage)
    ensures u in ListedSessions(rows, filter, since) <==> exists row <- rows :: UsageOf(row, filter, since, u)
  {
    if rows != [] {
      var before, last := rows[..|rows| - 1], rows[|rows| - 1];
      ListedIff(before, filter, since, u);
      ReportedIff(last, filter, since, u);
      assert rows == before + [last];
      assert (exists row <- rows :: UsageOf(row, filter, since, u))
        <==> (exists row <- before :: UsageOf(row, filter, since, u)) || UsageOf(last, filter, since, u);
    }
  }

  function OfSession(usage: SessionUsage): UsageTotals {
    usage.totals
  }

  function SessionTotals(sessions: seq<SessionUsage>): UsageTotals {
    Sum(sessions, OfSession)
  }

  // ----- no usage is lost or counted twice

  lemma InferencePart(m: InferenceMetric)
    ensures Measured(InferenceTotals(m)) >= 1 && SameTools(InferenceTotals(m), ZERO)
  {
    var p := InferenceTotals(m);
    assert p[ExecutedToolCalls] == 0 && p[FailedToolCalls] == 0;
    assert p[FullToolOutputBytes] == 0 && p[ModelToolOutputBytes] == 0 && p[ToolDurationMs] == 0;
  }

  lemma ToolPart(m: ToolMetric)
    ensures Measured(ToolTotals(m)) >= 1
  {
  }

  lemma OfOneMore(u: ToolUsage, m: ToolMetric)
    ensures OfTools(OneMore(u, m)) == OfTools(u) + ToolTotals(m)
  {
  }

  lemma OfUnused(provider: string, tool: string)
    ensures OfTools(Unused(provider, tool)) == ZERO
  {
  }

  lemma AddDaySum(daily: Daily, provider: string, a: Activity)
    ensures MapSum(AddDay(daily, provider, a), Itself) == MapSum(daily, Itself) + a.Totals()
  {
    var key := (a.Day(), provider);
    MapSumUpdate(daily, Itself, key, DayTotals(daily, key) + a.Totals(), a.Totals());
  }

  lemma AddToolSum(tools: Tools, provider: string, m: ToolMetric)
    ensures MapSum(AddTool(tools, provider, m), OfTools) == MapSum(tools, OfTools) + ToolTotals(m)
  {
    var key := (provider, m.name);
    var tool := ToolTotalsSoFar(tools, key);
    OfOneMore(tool, m);
    OfUnused(provider, m.name);
    MapSumUpdate(tools, OfTools, key, OneMore(tool, m), ToolTotals(m));
  }

  /** The days add up to what they held before and the usage that was booked. */
  lemma {:induction false} DaysSum(b: Books, provider: string, done: seq<Activity>, since: nat)
    ensures MapSum(BookAll(b, provider, done, since).daily, Itself) == MapSum(b.daily, Itself) + TotalsOf(done, since)
  {
    if done != [] {
      var before, last := done[..|done| - 1], done[|done| - 1];
      DaysSum(b, provider, before, since);
      AddDaySum(BookAll(b, provider, before, since).daily, provider, last);
      PlusLaws(MapSum(b.daily, Itself), TotalsOf(before, since), last.Totals());
    }
  }

  /** So do the tools, in the tool columns. */
  lemma {:induction false} ToolsSum(b: Books, provider: string, done: seq<Activity>, since: nat)
    ensures SameTools(MapSum(BookAll(b, provider, done, since).tools, OfTools),
                      MapSum(b.tools, OfTools) + TotalsOf(done, since))
  {
    if done != [] {
      var before, last := done[..|done| - 1], done[|done| - 1];
      ToolsSum(b, provider, before, since);
      if last.Use? {
        AddToolSum(BookAll(b, provider, before, since).tools, provider, last.use);
      } else {
        InferencePart(last.inference);
      }
    }
  }

  /** The activity of one day. */
  function OnDay(done: seq<Activity>, day: nat): seq<Activity> {
    if done == [] then []
    else
      var last := done[|done| - 1];
      OnDay(done[..|done| - 1], day) + if last.Day() == day then [last] else []
  }

  /** Each day and provider holds what it held before and the usage of that day, of that provider. */
  lemma {:induction false} DayHolds(b: Books, provider: string, done: seq<Activity>, since: nat, key: (nat, string))
    ensures DayTotals(BookAll(b, provider, done, since).daily, key)
         == DayTotals(b.daily, key) + if key.1 == provider then TotalsOf(OnDay(done, key.0), since) else ZERO
  {
    if done != [] {
      var before, last := done[..|done| - 1], done[|done| - 1];
      DayHolds(b, provider, before, since, key);
      if last.Day() == key.0 {
        assert (OnDay(before, key.0) + [last])[..|OnDay(before, key.0)|] == OnDay(before, key.0);
        PlusLaws(DayTotals(b.daily, key), TotalsOf(OnDay(before, key.0), since), last.Totals());
      } else {
        assert OnDay(done, key.0) == OnDay(before, key.0);
      }
    }
  }

  /** The uses of one tool. */
  function OfName(done: seq<Activity>, name: string): seq<Activity> {
    if done == [] then []
    else
      var last := done[|done| - 1];
      OfName(done[..|done| - 1], name) + if last.Use? && last.use.name == name then [last] else []
  }

  lemma AddToolHolds(tools: Tools, provider: string, m: ToolMetric, key: (string, string))
    ensures OfTools(ToolTotalsSoFar(AddTool(tools, provider, m), key))
         == OfTools(ToolTotalsSoFar(tools, key)) + if key == (provider, m.name) then ToolTotals(m) else ZERO
  {
    if key == (provider, m.name) {
      OfOneMore(ToolTotalsSoFar(tools, key), m);
    }
  }

  lemma OfNameNext(done: seq<Activity>, last: Activity, name: string, since: nat)
    ensures TotalsOf(OfName(done + [last], name), since)
         == TotalsOf(OfName(done, name), since)
            + if last.Use? && last.use.name == name && last.StartedAtMs() >= since then last.Totals() else ZERO
  {
    var before := OfName(done, name);
    assert (done + [last])[..|done|] == done;
    if last.Use? && last.use.name == name {
      assert (before + [last])[..|before|] == before;
    } else {
      assert OfName(done + [last], name) == before;
    }
  }

  /** Each tool of a provider holds what it held before and its own uses by that provider. */
  lemma {:induction false} ToolHolds(b: Books, provider: string, done: seq<Activity>, since: nat, key: (string, string))
    ensures OfTools(ToolTotalsSoFar(BookAll(b, provider, done, since).tools, key))
         == OfTools(ToolTotalsSoFar(b.tools, key))
            + if key.0 == provider then TotalsOf(OfName(done, key.1), since) else ZERO
  {
    if done != [] {
      var before, last := done[..|done| - 1], done[|done| - 1];
      ToolHolds(b, provider, before, since, key);
      OfNameNext(before, last, key.1, since);
      SplitLast(done);
      var books := BookAll(b, provider, before, since);
      if last.Use? && last.StartedAtMs() >= since {
        AddToolHolds(books.tools, provider, last.use, key);
        PlusLaws(OfTools(ToolTotalsSoFar(b.tools, key)), TotalsOf(OfName(before, key.1), since), last.Totals());
      }
    }
  }

  /** The days of the whole report add up to all usage, and its tools to their columns of it. */
  lemma {:induction false} UsageConserved(rows: seq<StoredRow>, filter: Option<string>, since: nat)
    ensures MapSum(BookRows(rows, filter, since).daily, Itself) == AllUsage(rows, filter, since)
    ensures SameTools(MapSum(BookRows(rows, filter, since).tools, OfTools), AllUsage(rows, filter, since))
  {
    if rows != [] {
      var before, last := rows[..|rows| - 1], rows[|rows| - 1];
      UsageConserved(before, filter, since);
      DaysSum(BookRows(before, filter, since), last.provider, RowActivity(last, filter), since);
      ToolsSum(BookRows(before, filter, since), last.provider, RowActivity(last, filter), since);
    }
  }

  /** The usage of one day and provider. */
  function DayUsage(rows: seq<StoredRow>, filter: Option<string>, since: nat, key: (nat, string)): UsageTotals {
    if rows == [] then ZERO
    else
      var last := rows[|rows| - 1];
      DayUsage(rows[..|rows| - 1], filter, since, key)
      + if key.1 == last.provider then TotalsOf(OnDay(RowActivity(last, filter), key.0), since) else ZERO
  }

  /** The report shows each day's usage of each provider on that day, and under that provider. */
  lemma {:induction false} ReportDayHolds(rows: seq<StoredRow>, filter: Option<string>, since: nat, key: (nat, string))
    ensures DayTotals(BookRows(rows, filter, since).daily, key) == DayUsage(rows, filter, since, key)
  {
    if rows != [] {
      var before, last := rows[..|rows| - 1], rows[|rows| - 1];
      ReportDayHolds(before, filter, since, key);
      DayHolds(BookRows(before, filter, since), last.provider, RowActivity(last, filter), since, key);
    }
  }

  // ----- which sessions the list leaves out

  predicate ActiveSince(done: seq<Activity>, since: nat) {
    exists i :: 0 <= i < |done| && done[i].StartedAtMs() >= since
  }

  lemma ActiveNext(done: seq<Activity>, a: Activity, since: nat)
    ensures ActiveSince(done + [a], since) <==> ActiveSince(done, since) || a.StartedAtMs() >= since
  {
    var all := done + [a];
    assert all[|done|] == a && forall i :: 0 <= i < |done| ==> all[i] == done[i];
  }

  /** There is a latest activity when something in the window did not start at zero. */
  lemma {:induction false} LatestIff(done: seq<Activity>, since: nat)
    ensures LatestOf(done, since) > 0 <==> ActiveSince(done, AtLeastOne(since))
  {
    if done != [] {
      var before, last := done[..|done| - 1], done[|done| - 1];
      LatestIff(before, since);
      ActiveNext(before, last, AtLeastOne(since));
      assert done == before + [last];
    }
  }

  /** Activity in the window shows in its totals. */
  lemma {:induction false} ActiveMeasured(done: seq<Activity>, since: nat)
    ensures ActiveSince(done, since) <==> Measured(TotalsOf(done, since)) > 0
    ensures !ActiveSince(done, since) ==> TotalsOf(done, since) == ZERO
  {
    if done != [] {
      var before, last := done[..|done| - 1], done[|done| - 1];
      ActiveMeasured(before, since);
      ActiveNext(before, last, since);
      assert done == before + [last];
      if last.Use? {
        ToolPart(last.use);
      } else {
        InferencePart(last.inference);
      }
    }
  }

  /** A row with activity in the window is listed: not all of that activity started at zero. */
  predicate RowListed(row: StoredRow, filter: Option<string>, since: nat) {
    ActiveSince(RowActivity(row, filter), since) ==> ActiveSince(RowActivity(row, filter), AtLeastOne(since))
  }

  predicate AllActiveListed(rows: seq<StoredRow>, filter: Option<string>, since: nat) {
    forall row <- rows :: RowListed(row, filter, since)
  }

  /** What a row adds that no listed session shows. */
  function Unlisted(row: StoredRow, filter: Option<string>, since: nat): UsageTotals {
    if LatestOf(RowActivity(row, filter), since) > 0 then ZERO else TotalsOf(RowActivity(row, filter), since)
  }

  function AllUnlisted(rows: seq<StoredRow>, filter: Option<string>, since: nat): UsageTotals {
    if rows == [] then ZERO
    else AllUnlisted(rows[..|rows| - 1], filter, since) + Unlisted(rows[|rows| - 1], filter, since)
  }

  lemma UnlistedIff(row: StoredRow, filter: Option<string>, since: nat)
    ensures RowListed(row, filter, since) <==> Measured(Unlisted(row, filter, since)) == 0
    ensures RowListed(row, filter, since) ==> Unlisted(row, filter, since) == ZERO
  {
    LatestIff(RowActivity(row, filter), since);
    ActiveMeasured(RowActivity(row, filter), since);
  }

  lemma {:induction false} AllUnlistedIff(rows: seq<StoredRow>, filter: Option<string>, since: nat)
    ensures AllActiveListed(rows, filter, since) <==> Measured(AllUnlisted(rows, filter, since)) == 0
    ensures AllActiveListed(rows, filter, since) ==> AllUnlisted(rows, filter, since) == ZERO
  {
    if rows != [] {
      var before, last := rows[..|rows| - 1], rows[|rows| - 1];
      AllUnlistedIff(before, filter, since);
      UnlistedIff(last, filter, since);
      MeasuredPlus(AllUnlisted(before, filter, since), Unlisted(last, filter, since));
      SplitLast(rows);
    }
  }

  lemma ListNext(sessions: seq<SessionUsage>, usage: SessionUsage)
    ensures SessionTotals(sessions + [usage]) == SessionTotals(sessions) + usage.totals
  {
    assert (sessions + [usage])[..|sessions|] == sessions;
  }

  /** The listed sessions show all usage but that of the rows the list leaves out. */
  lemma {:induction false} SessionsSum(rows: seq<StoredRow>, filter: Option<string>, since: nat)
    ensures SessionTotals(ListedSessions(rows, filter, since)) + AllUnlisted(rows, filter, since)
            == AllUsage(rows, filter, since)
  {
    if rows != [] {
      var before, last := rows[..|rows| - 1], rows[|rows| - 1];
      SessionsSum(before, filter, since);
      var listed, unlisted := SessionTotals(ListedSessions(before, filter, since)), AllUnlisted(before, filter, since);
      var usage := TotalsOf(RowActivity(last, filter), since);
      if LatestOf(RowActivity(last, filter), since) > 0 {
        ListNext(ListedSessions(before, filter, since), SessionReport(last, last.session.value, since).value);
        Swap(listed, unlisted, usage);
      } else {
        assert ListedSessions(rows, filter, since) == ListedSessions(before, filter, since);
        PlusLaws(listed, unlisted, usage);
      }
    }
  }

  lemma Swap(a: UsageTotals, b: UsageTotals, c: UsageTotals)
    ensures (a + c) + (b + ZERO) == a + b + c
  {
  }

  /** The listed sessions add up to all usage exactly when every active session is listed. */
  lemma SessionsConserved(rows: seq<StoredRow>, filter: Option<string>, since: nat)
    ensures SessionTotals(ListedSessions(rows, filter, since)) == AllUsage(rows, filter, since)
            <==> AllActiveListed(rows, filter, since)
  {
    SessionsSum(rows, filter, since);
    AllUnlistedIff(rows, filter, since);
    MeasuredPlus(SessionTotals(ListedSessions(rows, filter, since)), AllUnlisted(rows, filter, since));
    PlusLaws(SessionTotals(ListedSessions(rows, filter, since)), ZERO, ZERO);
  }

  /** It does happen: a session whose only tool use started at zero is counted, but not listed. */
  lemma CountedButNotListed(provider: string, sessionId: string, model: string, use: ToolMetric)
    requires use.startedAtMs == 0
    ensures var rows := [StoredRow(provider, sessionId, Some(Session(model, [], [use])))];
            && AllDecode(rows, None)
            && ListedSessions(rows, None, 0) == []
            && SessionTotals(ListedSessions(rows, None, 0)) != AllUsage(rows, None, 0)
  {
    var row := StoredRow(provider, sessionId, Some(Session(model, [], [use])));
    var done := RowActivity(row, None);
    assert done == [Use(use)];
    OneUseAtZero(use);
    assert [row][..0] == [];
    assert ListedSessions([row], None, 0) == [];
    assert AllUsage([row], None, 0)[ExecutedToolCalls] == 1;
    assert SessionTotals([])[ExecutedToolCalls] == 0;
  }

  lemma OneUseAtZero(use: ToolMetric)
    requires use.startedAtMs == 0
    ensures LatestOf([Use(use)], 0) == 0 && TotalsOf([Use(use)], 0)[ExecutedToolCalls] == 1
  {
    assert [Use(use)][..0] == [];
  }

  // ----- the aggregation

  class Aggregate {
    var daily: Daily
    var tools: Tools

    function Current(): Books
      reads this
    {
      Books(daily, tools)
    }

    constructor ()
      ensures Current() == Books(map[], map[])
    {
      daily, tools := map[], map[];
    }

    method AddToolUsage(provider: string, metric: ToolMetric)
      modifies this`tools
      ensures tools == AddTool(old(tools), provider, metric)
    {
      var key := (provider, metric.name);
      var tool := if key in tools then tools[key] else ToolUsage(provider, metric.name, 0, 0, 0, 0, 0);
      tool := tool.(calls := tool.calls + 1);
      tool := tool.(failures := tool.failures + Flag(metric.failed));
      tool := tool.(fullOutputBytes := tool.fullOutputBytes + metric.outputBytes);
      tool := tool.(modelOutputBytes := tool.modelOutputBytes + metric.modelOutputBytes);
      tool := tool.(durationMs := tool.durationMs + metric.durationMs);
      tools := tools[key := tool];
    }

    /** Counts one activity, unless it is older than the window. */
    method Count(provider: string, a: Activity, since: nat, totals: UsageTotals, latest: nat,
                 ghost before: seq<Activity>, ghost b: Books)
      returns (totals': UsageTotals, latest': nat)
      requires Counted(before, provider, since, b, Current(), totals, latest)
      modifies this
      ensures Counted(before + [a], provider, since, b, Current(), totals', latest')
    {
      StepOver(before, a, provider, since, b);
      totals', latest' := totals, latest;
      if a.StartedAtMs() >= since {
        latest' := if a.StartedAtMs() < latest then latest else a.StartedAtMs();
        totals' := totals + a.Totals();
        daily := AddDay(daily, provider, a);
        if a.Use? {
          AddToolUsage(provider, a.use);
        }
      }
    }

    method CountInference(provider: string, inference: seq<InferenceMetric>, since: nat)
      returns (totals: UsageTotals, latest: nat)
      modifies this
      ensures Counted(InferenceOf(inference), provider, since, old(Current()), Current(), totals, latest)
    {
      totals, latest := ZERO, 0;
      ghost var done := InferenceOf(inference);
      for i := 0 to |inference|
        invariant Counted(done[..i], provider, since, old(Current()), Current(), totals, latest)
      {
        TakeNext(done, i);
        totals, latest := Count(provider, Inference(inference[i]), since, totals, latest, done[..i], old(Current()));
      }
      assert done[..|done|] == done;
    }

    method CountUses(provider: string, uses: seq<ToolMetric>, since: nat, totals: UsageTotals, latest: nat,
                     ghost before: seq<Activity>, ghost b: Books)
      returns (totals': UsageTotals, latest': nat)
      requires Counted(before, provider, since, b, Current(), totals, latest)
      modifies this
      ensures Counted(before + UsesOf(uses), provider, since, b, Current(), totals', latest')
    {
      totals', latest' := totals, latest;
      ghost var done := UsesOf(uses);
      assert before + [] == before;
      for i := 0 to |uses|
        invariant Counted(before + done[..i], provider, since, b, Current(), totals', latest')
      {
        TakeNext(done, i);
        assert before + done[..i] + [done[i]] == before + (done[..i] + [done[i]]);
        totals', latest' := Count(provider, Use(uses[i]), since, totals', latest', before + done[..i], b);
      }
      assert done[..|done|] == done;
    }

    /** Adds a session's usage in the window to both maps, and lists the session unless it was idle. */
    method AggregateSession(row: StoredRow, session: Session, since: nat) returns (usage: Option<SessionUsage>)
      modifies this
      ensures Current() == BookAll(old(Current()), row.provider, ActivityOf(session), since)
      ensures usage == SessionReport(row, session, since)
    {
      ghost var b := Current();
      var totals, latest := CountInference(row.provider, session.inference, since);
      totals, latest := CountUses(row.provider, session.tools, since, totals, latest, InferenceOf(session.inference),
                                  b);
      usage := if latest > 0 then Some(SessionUsage(row.sessionId, row.provider, session.model, latest, totals))
               else None;
    }

    /** The sum of the daily values, taken in any order. */
    method SumDaily() returns (totals: UsageTotals)
      ensures totals == MapSum(daily, Itself)
    {
      totals := ZERO;
      var rest := daily;
      PlusLaws(MapSum(daily, Itself), ZERO, ZERO);
      while rest != map[]
        invariant totals + MapSum(rest, Itself) == MapSum(daily, Itself)
        decreases |rest|
      {
        var key :| key in rest;
        MapSumAt(rest, Itself, key);
        PlusLaws(totals, rest[key], MapSum(rest - {key}, Itself));
        totals := totals + rest[key];
        rest := rest - {key};
      }
      PlusLaws(totals, ZERO, ZERO);
    }
  }

  /** What has been counted after some of a session's activity. */
  ghost predicate Counted(done: seq<Activity>, provider: string, since: nat, b: Books, books: Books,
                          totals: UsageTotals, latest: nat) {
    books == BookAll(b, provider, done, since) && totals == TotalsOf(done, since) && latest == LatestOf(done, since)
  }

  lemma StepOver(done: seq<Activity>, a: Activity, provider: string, since: nat, b: Books)
    ensures var books, latest := BookAll(b, provider, done, since), LatestOf(done, since);
            if a.StartedAtMs() < since
            then Counted(done + [a], provider, since, b, books, TotalsOf(done, since), latest)
            else Counted(done + [a], provider, since, b, Book(books, provider, a), TotalsOf(done, since) + a.Totals(),
                         if a.StartedAtMs() < latest then latest else a.StartedAtMs())
  {
    assert (done + [a])[..|done|] == done;
  }

  datatype Collected = Collected(report: Report) | InvalidSession(sessionId: string)

  predicate Undecodable(row: StoredRow, filter: Option<string>) {
    Wanted(row, filter) && row.session.None?
  }

  /** Every wanted session decodes. */
  predicate AllDecode(rows: seq<StoredRow>, filter: Option<string>) {
    forall row <- rows :: !Undecodable(row, filter)
  }

  /** The window of so many days ends now, and starts no earlier than the epoch. */
  predicate StartsWindow(since: nat, days: nat, nowMs: nat) {
    since + days * DAY_MS == nowMs || (since == 0 && nowMs < days * DAY_MS)
  }

  function Since(days: nat, nowMs: nat): (since: nat)
    ensures StartsWindow(since, days, nowMs)
  {
    if nowMs < days * DAY_MS then 0 else nowMs - days * DAY_MS
  }

  function Scanned(rows: seq<StoredRow>, filter: Option<string>): nat {
    if rows == [] then 0 else Scanned(rows[..|rows| - 1], filter) + Flag(Wanted(rows[|rows| - 1], filter))
  }

  /** The wanted rows are counted. */
  lemma {:induction false} ScannedCounts(rows: seq<StoredRow>, filter: Option<string>)
    ensures Scanned(rows, filter) == |set i | 0 <= i < |rows| && Wanted(rows[i], filter)|
  {
    var wanted := set i | 0 <= i < |rows| && Wanted(rows[i], filter);
    if rows != [] {
      var n := |rows| - 1;
      var before := set i | 0 <= i < |rows[..n]| && Wanted(rows[..n][i], filter);
      ScannedCounts(rows[..n], filter);
      assert wanted == before + if Wanted(rows[n], filter) then {n} else {};
    }
  }

  /** One more row: if it is wanted, its session is counted, and listed unless it was idle. */
  method CollectRow(aggregate: Aggregate, rows: seq<StoredRow>, i: nat, filter: Option<string>, since: nat,
                    sessions: seq<SessionUsage>, scanned: nat)
    returns (sessions': seq<SessionUsage>, scanned': nat)
    requires i < |rows| && !Undecodable(rows[i], filter)
    requires CollectedSoFar(rows[..i], filter, since, aggregate.Current(), sessions, scanned)
    modifies aggregate
    ensures CollectedSoFar(rows[..i + 1], filter, since, aggregate.Current(), sessions', scanned')
  {
    assert rows[..i + 1][..i] == rows[..i];
    sessions', scanned' := sessions, scanned;
    if Wanted(rows[i], filter) {
      scanned' := scanned + 1;
      var usage := aggregate.AggregateSession(rows[i], rows[i].session.value, since);
      if usage.Some? {
        sessions' := sessions + [usage.value];
      }
    }
  }

  /** Every row in turn, up to a wanted one whose session does not decode. */
  method CollectRows(aggregate: Aggregate, rows: seq<StoredRow>, filter: Option<string>, since: nat)
    returns (invalid: Option<string>, sessions: seq<SessionUsage>, scanned: nat)
    requires aggregate.Current() == Books(map[], map[])
    modifies aggregate
    ensures invalid.None? <==> AllDecode(rows, filter)
    ensures invalid.None? ==> CollectedSoFar(rows, filter, since, aggregate.Current(), sessions, scanned)
  {
    invalid, sessions, scanned := None, [], 0;
    for i := 0 to |rows|
      invariant AllDecode(rows[..i], filter)
      invariant CollectedSoFar(rows[..i], filter, since, aggregate.Current(), sessions, scanned)
    {
      if Undecodable(rows[i], filter) {
        return Some(rows[i].sessionId), [], 0;
      }
      sessions, scanned := CollectRow(aggregate, rows, i, filter, since, sessions, scanned);
      TakeNext(rows, i);
    }
    assert rows[..|rows|] == rows;
  }

  ghost predicate CollectedSoFar(rows: seq<StoredRow>, filter: Option<string>, since: nat, books: Books,
                                 sessions: seq<SessionUsage>, scanned: nat) {
    && books == BookRows(rows, filter, since)
    && sessions == ListedSessions(rows, filter, since) && scanned == Scanned(rows, filter)
  }

  // ----- the lists of the report

  const MAX_SESSIONS: nat := 500

  /** The more tokens were reported, the earlier; then the later its activity. */
  predicate BusierFirst(a: SessionUsage, b: SessionUsage) {
    || a.totals[ReportedInputTokens] > b.totals[ReportedInputTokens]
    || (a.totals[ReportedInputTokens] == b.totals[ReportedInputTokens] && a.latestActivityMs >= b.latestActivityMs)
  }

  /** The more bytes the model saw, the earlier; then the more calls. */
  predicate LouderFirst(a: ToolUsage, b: ToolUsage) {
    || a.modelOutputBytes > b.modelOutputBytes
    || (a.modelOutputBytes == b.modelOutputBytes && a.calls >= b.calls)
  }

  /** By provider, then by name. */
  predicate ByTool(a: ToolUsage, b: ToolUsage) {
    if a.provider == b.provider then AtMost(a.tool, b.tool) else AtMost(a.provider, b.provider)
  }

  function KeyOf(u: ToolUsage): (string, string) {
    (u.provider, u.tool)
  }

  lemma ByToolIsOrder()
    ensures IsOrder(ByTool)
  {
    forall a, b ensures ByTool(a, b) || ByTool(b, a) {
      AtMostTotal(a.provider, b.provider);
      AtMostTotal(a.tool, b.tool);
    }
    forall a, b, c | ByTool(a, b) && ByTool(b, c) ensures ByTool(a, c) {
      AtMostTotal(b.provider, b.provider);
      AtMostTransitive(a.provider, b.provider, c.provider);
      if a.provider == c.provider {
        AtMostAntisymmetric(a.provider, b.provider);
        AtMostTransitive(a.tool, b.tool, c.tool);
      }
    }
  }

  lemma ListsAreOrdered()
    ensures IsOrder(BusierFirst) && IsOrder(LouderFirst)
  {
  }

  /** Every tool stands under its own provider and name. */
  predicate Keyed(tools: Tools) {
    forall key <- tools :: KeyOf(tools[key]) == key
  }

  lemma {:induction false} BookAllKeyed(b: Books, provider: string, done: seq<Activity>, since: nat)
    requires Keyed(b.tools)
    ensures Keyed(BookAll(b, provider, done, since).tools)
  {
    if done != [] {
      BookAllKeyed(b, provider, done[..|done| - 1], since);
    }
  }

  lemma {:induction false} BookRowsKeyed(rows: seq<StoredRow>, filter: Option<string>, since: nat)
    ensures Keyed(BookRows(rows, filter, since).tools)
  {
    if rows != [] {
      var before, last := rows[..|rows| - 1], rows[|rows| - 1];
      BookRowsKeyed(before, filter, since);
      BookAllKeyed(BookRows(before, filter, since), last.provider, RowActivity(last, filter), since);
    }
  }

  /** The values of the map in the order of their keys, each once. */
  ghost predicate InKeyOrder(tools: Tools, values: seq<ToolUsage>) {
    && InOrder(values, ByTool)
    && |values| == |tools|
    && (forall u <- values :: KeyOf(u) in tools && tools[KeyOf(u)] == u)
    && (forall key <- tools :: tools[key] in values)
  }

  lemma InsertMembers<T>(ts: seq<T>, t: T, le: Comparison<T>)
    ensures |Insert(ts, t, le)| == |ts| + 1
    ensures forall x :: x in Insert(ts, t, le) <==> x in ts || x == t
  {
    InsertKeeps(ts, t, le);
    assert multiset(Insert(ts, t, le)) == multiset(ts + [t]);
    SameMembers(Insert(ts, t, le), ts + [t]);
  }

  lemma InKeyOrderNext(tools: Tools, values: seq<ToolUsage>, key: (string, string), u: ToolUsage)
    requires InKeyOrder(tools, values) && key == KeyOf(u) && key !in tools
    ensures InKeyOrder(tools[key := u], Insert(values, u, ByTool))
  {
    ByToolIsOrder();
    InsertInOrder(values, u, ByTool);
    InsertMembers(values, u, ByTool);
    assert |tools[key := u]| == |tools| + 1;
  }

  lemma ValuesSumNext(tools: Tools, values: seq<ToolUsage>, key: (string, string), u: ToolUsage)
    requires Sum(values, OfTools) == MapSum(tools, OfTools) && key !in tools
    ensures Sum(Insert(values, u, ByTool), OfTools) == MapSum(tools[key := u], OfTools)
  {
    SumInsert(values, u, ByTool, OfTools);
    PlusLaws(ZERO, OfTools(u), ZERO);
    MapSumUpdate(tools, OfTools, key, u, OfTools(u));
  }

  /** What the ordered map yields; here its keys come in any order, and are put in order. */
  method ValuesInOrder(tools: Tools) returns (values: seq<ToolUsage>)
    requires Keyed(tools)
    ensures InKeyOrder(tools, values) && Sum(values, OfTools) == MapSum(tools, OfTools)
  {
    values := [];
    var rest := tools.Keys;
    TakeNone(tools);
    while rest != {}
      invariant rest <= tools.Keys && PartlyTaken(tools, rest, values)
      decreases |rest|
    {
      var key :| key in rest;
      TakeOne(tools, rest, values, key);
      values := Insert(values, tools[key], ByTool);
      rest := rest - {key};
    }
    AllTaken(tools, values);
  }

  ghost predicate PartlyTaken(tools: Tools, rest: set<(string, string)>, values: seq<ToolUsage>) {
    InKeyOrder(tools - rest, values) && Sum(values, OfTools) == MapSum(tools - rest, OfTools)
  }

  lemma TakeNone(tools: Tools)
    ensures PartlyTaken(tools, tools.Keys, [])
  {
    assert tools - tools.Keys == map[];
  }

  lemma AllTaken(tools: Tools, values: seq<ToolUsage>)
    requires PartlyTaken(tools, {}, values)
    ensures InKeyOrder(tools, values) && Sum(values, OfTools) == MapSum(tools, OfTools)
  {
    assert tools - {} == tools;
  }

  lemma TakeOne(tools: Tools, rest: set<(string, string)>, values: seq<ToolUsage>, key: (string, string))
    requires Keyed(tools) && PartlyTaken(tools, rest, values) && key in rest && key in tools
    ensures PartlyTaken(tools, rest - {key}, Insert(values, tools[key], ByTool))
  {
    assert tools - (rest - {key}) == (tools - rest)[key := tools[key]];
    InKeyOrderNext(tools - rest, values, key, tools[key]);
    ValuesSumNext(tools - rest, values, key, tools[key]);
  }

  /** The tools of the report: in the order of their keys, then sorted, which keeps that order among ties. */
  ghost predicate ListedTools(tools: Tools, listed: seq<ToolUsage>) {
    exists values :: InKeyOrder(tools, values) && listed == Sorted(values, LouderFirst)
  }

  /** Each tool is listed once, the loudest first, and those equally loud in the order of their keys. */
  lemma ListedToolsMeaning(tools: Tools, listed: seq<ToolUsage>)
    requires ListedTools(tools, listed)
    ensures |listed| == |tools| && forall u :: u in listed <==> KeyOf(u) in tools && tools[KeyOf(u)] == u
    ensures forall i, j :: 0 <= i < j < |listed| ==>
              || listed[i].modelOutputBytes > listed[j].modelOutputBytes
              || (listed[i].modelOutputBytes == listed[j].modelOutputBytes && listed[i].calls >= listed[j].calls)
    ensures forall t :: InOrder(TiedWith(listed, t, LouderFirst), ByTool)
  {
    var values :| InKeyOrder(tools, values) && listed == Sorted(values, LouderFirst);
    ListsAreOrdered();
    SortedKeeps(values, LouderFirst);
    SameMembers(listed, values);
    SortedInOrder(values, LouderFirst);
    forall t ensures InOrder(TiedWith(listed, t, LouderFirst), ByTool) {
      SortedIsStable(values, t, LouderFirst);
      TiedInOrder(values, t, LouderFirst, ByTool);
    }
  }

  /** The sessions of the report: the busiest ones, as many as asked for, but at most 500. */
  function ShownSessions(sessions: seq<SessionUsage>, limit: nat): seq<SessionUsage> {
    Take(Sorted(sessions, BusierFirst), if limit < MAX_SESSIONS then limit else MAX_SESSIONS)
  }

  lemma FrontOfSorted(shown: seq<SessionUsage>, hidden: seq<SessionUsage>)
    requires InOrder(shown + hidden, BusierFirst)
    ensures forall a <- shown, b <- hidden :: BusierFirst(a, b)
  {
    forall a, b | a in shown && b in hidden ensures BusierFirst(a, b) {
      var i :| 0 <= i < |shown| && shown[i] == a;
      var j :| 0 <= j < |hidden| && hidden[j] == b;
      assert (shown + hidden)[i] == a && (shown + hidden)[|shown| + j] == b;
    }
  }

  /** No session that is left out is busier than one that is shown. */
  lemma BusiestShown(sessions: seq<SessionUsage>, limit: nat) returns (hidden: seq<SessionUsage>)
    ensures multiset(ShownSessions(sessions, limit) + hidden) == multiset(sessions)
    ensures hidden != [] ==> |ShownSessions(sessions, limit)| == if limit < MAX_SESSIONS then limit else MAX_SESSIONS
    ensures InOrder(ShownSessions(sessions, limit) + hidden, BusierFirst)
    ensures forall a <- ShownSessions(sessions, limit), b <- hidden ::
              a.totals[ReportedInputTokens] >= b.totals[ReportedInputTokens]
              && (a.totals[ReportedInputTokens] == b.totals[ReportedInputTokens] ==>
                    a.latestActivityMs >= b.latestActivityMs)
  {
    var sorted, shown := Sorted(sessions, BusierFirst), ShownSessions(sessions, limit);
    ListsAreOrdered();
    SortedKeeps(sessions, BusierFirst);
    SortedInOrder(sessions, BusierFirst);
    hidden := sorted[|shown|..];
    assert shown + hidden == sorted;
    FrontOfSorted(shown, hidden);
  }

  /** The totals are all usage in the window; the days and the tools add up to them, and so do the sessions,
      if none is cut off, exactly when every active session is listed. */
  ghost predicate Reports(rows: seq<StoredRow>, filter: Option<string>, since: nat, limit: nat, report: Report) {
    var books, sessions := BookRows(rows, filter, since), ListedSessions(rows, filter, since);
    && report.sessionsScanned == Scanned(rows, filter)
    && report.totals == AllUsage(rows, filter, since)
    && report.daily == books.daily && MapSum(report.daily, Itself) == report.totals
    && ListedTools(books.tools, report.tools) && SameTools(Sum(report.tools, OfTools), report.totals)
    && report.sessionsWithActivity == |sessions| && report.sessions == ShownSessions(sessions, limit)
    && (|report.sessions| == |sessions| ==>
          (SessionTotals(report.sessions) == report.totals <==> AllActiveListed(rows, filter, since)))
  }

  lemma AllShown(sessions: seq<SessionUsage>, limit: nat)
    requires |ShownSessions(sessions, limit)| == |sessions|
    ensures SessionTotals(ShownSessions(sessions, limit)) == SessionTotals(sessions)
  {
    SortedKeeps(sessions, BusierFirst);
    SameMembers(Sorted(sessions, BusierFirst), sessions);
    SumSorted(sessions, BusierFirst, OfSession);
    assert ShownSessions(sessions, limit) == Sorted(sessions, BusierFirst);
  }

  /** The sums of a report whose parts are as they should be. */
  lemma ReportAddsUp(rows: seq<StoredRow>, filter: Option<string>, since: nat, limit: nat, values: seq<ToolUsage>)
    requires Sum(values, OfTools) == MapSum(BookRows(rows, filter, since).tools, OfTools)
    ensures MapSum(BookRows(rows, filter, since).daily, Itself) == AllUsage(rows, filter, since)
    ensures SameTools(Sum(Sorted(values, LouderFirst), OfTools), AllUsage(rows, filter, since))
    ensures var sessions := ListedSessions(rows, filter, since);
            |ShownSessions(sessions, limit)| == |sessions| ==>
              (SessionTotals(ShownSessions(sessions, limit)) == AllUsage(rows, filter, since)
               <==> AllActiveListed(rows, filter, since))
  {
    UsageConserved(rows, filter, since);
    SumSorted(values, LouderFirst, OfTools);
    SessionsConserved(rows, filter, since);
    var sessions := ListedSessions(rows, filter, since);
    if |ShownSessions(sessions, limit)| == |sessions| {
      AllShown(sessions, limit);
    }
  }

  method Collect(rows: seq<StoredRow>, filter: Option<string>, days: nat, limit: nat, nowMs: nat) returns (r: Collected)
    ensures r.Collected? <==> AllDecode(rows, filter)
    ensures r.Collected? ==>
              forall since :: StartsWindow(since, days, nowMs) ==> Reports(rows, filter, since, limit, r.report)
  {
    r := CollectSince(rows, filter, Since(days, nowMs), limit);
    forall since | StartsWindow(since, days, nowMs)
      ensures r.Collected? ==> Reports(rows, filter, since, limit, r.report)
    {
      OneWindow(since, Since(days, nowMs), days, nowMs);
    }
  }

  lemma OneWindow(a: nat, b: nat, days: nat, nowMs: nat)
    requires StartsWindow(a, days, nowMs) && StartsWindow(b, days, nowMs)
    ensures a == b
  {
  }

  /** The report on a window. */
  method CollectSince(rows: seq<StoredRow>, filter: Option<string>, since: nat, limit: nat) returns (r: Collected)
    ensures r.Collected? <==> AllDecode(rows, filter)
    ensures r.Collected? ==> Reports(rows, filter, since, limit, r.report)
  {
    var aggregate := new Aggregate();
    var invalid, sessions, scanned := CollectRows(aggregate, rows, filter, since);
    if invalid.Some? {
      return InvalidSession(invalid.value);
    }
    BookRowsKeyed(rows, filter, since);
    var values := ValuesInOrder(aggregate.tools);
    var totals := aggregate.SumDaily();
    ReportAddsUp(rows, filter, since, limit, values);
    var tools := Sorted(values, LouderFirst);
    assert ListedTools(aggregate.tools, tools);
    return Collected(Report(scanned, totals, aggregate.daily, tools, |sessions|, ShownSessions(sessions, limit)));
  }
}
