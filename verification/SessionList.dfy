/**
 The session list query. The statement of `routes/sessions.ts` picks the page
 first and aggregates afterwards, in one of two shapes; the frozen statement of
 `sessions-bench-baseline.ts` aggregates everything, sorts and slices. Tables
 are row lists in whatever order a scan delivers them; a grouped CTE has one row
 per session and is a map keyed by the session id.
 */
module SessionList {
  import opened Options
  import opened Orders

  datatype Trace = Trace(
    project: string, id: string, session: Option<string>, user: Option<string>,
    timestamp: int, tags: Option<string>, environment: string, deleted: bool)

  datatype Measure = InputCost | OutputCost | TotalCost | InputTokens | OutputTokens | TotalTokens | CachedTokens

  /** One trace_metrics row; a measure that is absent is NULL. */
  type Metrics = map<Measure, int>

  /** trace_metrics by its primary key (project_id, trace_id). */
  type MetricsTable = map<(string, string), Metrics>

  /** A SQLite value; NULL sorts before numbers, numbers before text. */
  datatype Value = Null | Number(n: int) | Text(s: string)

  datatype Direction = Asc | Desc

  datatype SortKey = CreatedAt | SessionId | CountTraces | SessionDuration | Metric(measure: Measure)

  datatype Query = Query(project: string, filter: Trace -> bool, sortKey: SortKey, dir: Direction)

  // ---- ORDER BY expr dir, id ASC -----------------------------------------------

  datatype Rank = Rank(key: Value, id: string)

  predicate ValueLess(a: Value, b: Value) {
    match (a, b)
    case (Null, Null) => false
    case (Null, _) => true
    case (Number(x), Number(y)) => x < y
    case (Number(_), Text(_)) => true
    case (Text(x), Text(y)) => TextLess(x, y)
    case _ => false
  }

  predicate RankLess(dir: Direction, a: Rank, b: Rank) {
    if a.key != b.key then (if dir == Asc then ValueLess(a.key, b.key) else ValueLess(b.key, a.key))
    else TextLess(a.id, b.id)
  }

  function Less(dir: Direction): (Rank, Rank) -> bool {
    (a, b) => RankLess(dir, a, b)
  }

  lemma ValueLessTransitive(a: Value, b: Value, c: Value)
    requires ValueLess(a, b) && ValueLess(b, c)
    ensures ValueLess(a, c)
  {
    if a.Text? && b.Text? && c.Text? { TextLessTransitive(a.s, b.s, c.s); }
  }

  lemma ValueLessTrichotomy(a: Value, b: Value)
    ensures !ValueLess(a, a)
    ensures a == b || ValueLess(a, b) || ValueLess(b, a)
  {
    if a.Text? { TextLessIrreflexive(a.s); }
    if a.Text? && b.Text? { TextLessConnected(a.s, b.s); }
  }

  lemma RankLessTransitive(dir: Direction, a: Rank, b: Rank, c: Rank)
    requires RankLess(dir, a, b) && RankLess(dir, b, c)
    ensures RankLess(dir, a, c)
  {
    if a.key == b.key && b.key == c.key {
      TextLessTransitive(a.id, b.id, c.id);
    } else if a.key != b.key && b.key != c.key {
      if dir == Asc { ValueLessTransitive(a.key, b.key, c.key); } else { ValueLessTransitive(c.key, b.key, a.key); }
      ValueLessTrichotomy(a.key, a.key);
    }
  }

  lemma RankLessStrictTotal(dir: Direction)
    ensures StrictTotal(Less(dir))
  {
    var less := Less(dir);
    forall a: Rank ensures !less(a, a) { TextLessIrreflexive(a.id); }
    forall a: Rank, b: Rank, c: Rank | less(a, b) && less(b, c) ensures less(a, c) {
      RankLessTransitive(dir, a, b, c);
    }
    forall a: Rank, b: Rank ensures a == b || less(a, b) || less(b, a) {
      ValueLessTrichotomy(a.key, b.key);
      TextLessConnected(a.id, b.id);
    }
  }

  // ---- WHERE and per-session row sets --------------------------------------------

  /** The trace conditions shared by every aggregate. */
  predicate Matches(q: Query, t: Trace) {
    && t.project == q.project
    && !t.deleted
    && t.session.Some?
    && t.session.value != ""
    && q.filter(t)
  }

  function Select(p: Trace -> bool, ts: seq<Trace>): seq<Trace> {
    if ts == [] then []
    else if p(ts[0]) then [ts[0]] + Select(p, ts[1..])
    else Select(p, ts[1..])
  }

  lemma {:induction false} SelectMembers(p: Trace -> bool, ts: seq<Trace>)
    ensures forall t :: t in Select(p, ts) <==> t in ts && p(t)
  {
    if ts != [] {
      SelectMembers(p, ts[1..]);
      assert ts == [ts[0]] + ts[1..];
    }
  }

  function Matching(q: Query): Trace -> bool {
    (t: Trace) => Matches(q, t)
  }

  function InSession(id: string): Trace -> bool {
    (t: Trace) => t.session == Some(id)
  }

  function OnPage(q: Query, id: string): Trace -> bool {
    (t: Trace) => t.session == Some(id) && Matches(q, t)
  }

  function Filtered(q: Query, ts: seq<Trace>): seq<Trace> {
    Select(Matching(q), ts)
  }

  function OfSession(id: string, ts: seq<Trace>): seq<Trace> {
    Select(InSession(id), ts)
  }

  function SessionIds(ts: seq<Trace>): set<string> {
    set t | t in ts && t.session.Some? :: t.session.value
  }

  // ---- Aggregates of one group --------------------------------------------------------

  function MinTime(ts: seq<Trace>): int
    requires ts != []
  {
    if |ts| == 1 then ts[0].timestamp
    else
      var m := MinTime(ts[1..]);
      if ts[0].timestamp < m then ts[0].timestamp else m
  }

  function MaxTime(ts: seq<Trace>): int
    requires ts != []
  {
    if |ts| == 1 then ts[0].timestamp
    else
      var m := MaxTime(ts[1..]);
      if ts[0].timestamp > m then ts[0].timestamp else m
  }

  function MaxEnvironment(ts: seq<Trace>): string
    requires ts != []
  {
    if |ts| == 1 then ts[0].environment
    else
      var m := MaxEnvironment(ts[1..]);
      if TextLess(m, ts[0].environment) then ts[0].environment else m
  }

  /** LEFT JOIN trace_metrics, one measure. */
  function MeasureOf(metrics: MetricsTable, m: Measure, t: Trace): Option<int> {
    if (t.project, t.id) in metrics && m in metrics[(t.project, t.id)]
    then Some(metrics[(t.project, t.id)][m]) else None
  }

  /** Addition as SUM performs it: NULL inputs are skipped. */
  function Plus(a: Option<int>, b: Option<int>): Option<int> {
    if a.None? then b else if b.None? then a else Some(a.value + b.value)
  }

  function Sum(metrics: MetricsTable, m: Measure, ts: seq<Trace>): Option<int> {
    if ts == [] then None else Plus(MeasureOf(metrics, m, ts[0]), Sum(metrics, m, ts[1..]))
  }

  predicate CoalescesToZero(m: Measure) {
    m.InputTokens? || m.OutputTokens? || m.TotalTokens? || m.CachedTokens?
  }

  function SumColumn(metrics: MetricsTable, m: Measure, ts: seq<Trace>): Value {
    match Sum(metrics, m, ts)
    case Some(total) => Number(total)
    case None => if CoalescesToZero(m) then Number(0) else Null
  }

  /** Columns of session_base / page_base. Tag blobs are compared as a set. */
  datatype BaseRow = BaseRow(createdAt: int, countTraces: nat, duration: int, tags: set<string>, environment: string)

  function BaseOf(ts: seq<Trace>): BaseRow
    requires ts != []
  {
    BaseRow(MinTime(ts), |ts|, MaxTime(ts) - MinTime(ts),
            set t | t in ts && t.tags.Some? :: t.tags.value, MaxEnvironment(ts))
  }

  /** Columns of session_metrics. */
  datatype MetricRow = MetricRow(inputCost: Value, outputCost: Value, totalCost: Value,
                                 inputTokens: Value, outputTokens: Value, totalTokens: Value, cachedTokens: Value)
  {
    function Column(m: Measure): Value {
      match m
      case InputCost => inputCost
      case OutputCost => outputCost
      case TotalCost => totalCost
      case InputTokens => inputTokens
      case OutputTokens => outputTokens
      case TotalTokens => totalTokens
      case CachedTokens => cachedTokens
    }
  }

  function MetricsOf(metrics: MetricsTable, ts: seq<Trace>): MetricRow {
    MetricRow(SumColumn(metrics, InputCost, ts), SumColumn(metrics, OutputCost, ts),
              SumColumn(metrics, TotalCost, ts), SumColumn(metrics, InputTokens, ts),
              SumColumn(metrics, OutputTokens, ts), SumColumn(metrics, TotalTokens, ts),
              SumColumn(metrics, CachedTokens, ts))
  }

  predicate HasUser(t: Trace) {
    t.user.Some? && t.user.value != ""
  }

  /** The DISTINCT non-empty users of a group. */
  function UsersOf(ts: seq<Trace>): set<string> {
    set t | t in ts && HasUser(t) :: t.user.value
  }

  // ---- The CTEs ---------------------------------------------------------------------------

  type BaseTable = map<string, BaseRow>
  type MetricTable = map<string, MetricRow>
  type UserTable = map<string, set<string>>

  function GroupBase(ts: seq<Trace>): BaseTable {
    map id | id in SessionIds(ts) :: BaseOf(NonEmptyGroup(id, ts))
  }

  function GroupMetrics(metrics: MetricsTable, ts: seq<Trace>): MetricTable {
    map id | id in SessionIds(ts) :: MetricsOf(metrics, OfSession(id, ts))
  }

  /** session_users has no row for a session without users. */
  function GroupUsers(ts: seq<Trace>): UserTable {
    map id | id in SessionIds(Select(HasUser, ts)) :: UsersOf(OfSession(id, ts))
  }

  function NonEmptyGroup(id: string, ts: seq<Trace>): (r: seq<Trace>)
    requires id in SessionIds(ts)
    ensures r == OfSession(id, ts) && r != []
  {
    var t :| t in ts && t.session == Some(id);
    SelectMembers(InSession(id), ts);
    assert t in OfSession(id, ts);
    OfSession(id, ts)
  }

  /** One row of the response: the LEFT JOINs give NULL for a missing side. */
  datatype ResultRow = ResultRow(id: string, base: BaseRow, metrics: Option<MetricRow>, users: Option<set<string>>)

  function Join(id: string, base: BaseTable, sm: MetricTable, su: UserTable): ResultRow
    requires id in base
  {
    ResultRow(id, base[id], if id in sm then Some(sm[id]) else None, if id in su then Some(su[id]) else None)
  }

  function Rows(ids: seq<string>, base: BaseTable, sm: MetricTable, su: UserTable): seq<ResultRow>
    requires forall id :: id in ids ==> id in base
  {
    seq(|ids|, i requires 0 <= i < |ids| => assert ids[i] in ids; Join(ids[i], base, sm, su))
  }

  /** The value a sort key takes in a joined session row. */
  function KeyValue(k: SortKey, id: string, base: BaseTable, sm: MetricTable): Value {
    match k
    case SessionId => Text(id)
    case CreatedAt => if id in base then Number(base[id].createdAt) else Null
    case CountTraces => if id in base then Number(base[id].countTraces) else Null
    case SessionDuration => if id in base then Number(base[id].duration) else Null
    case Metric(m) => if id in sm then sm[id].Column(m) else Null
  }

  function RankBy(k: SortKey, base: BaseTable, sm: MetricTable): string -> Rank {
    id => Rank(KeyValue(k, id, base, sm), id)
  }

  ghost function Ordered(q: Query, ids: set<string>, base: BaseTable, sm: MetricTable): seq<string> {
    OrderBy(Less(q.dir), RankBy(q.sortKey, base, sm), ids)
  }

  // ---- The frozen statement: aggregate all, sort, slice -----------------------------------

  /** The whole ordered session list, before LIMIT and OFFSET. */
  ghost function AllSessions(q: Query, traces: seq<Trace>, metrics: MetricsTable): seq<string> {
    var ft := Filtered(q, traces);
    Ordered(q, GroupBase(ft).Keys, GroupBase(ft), GroupMetrics(metrics, ft))
  }

  ghost function LegacyList(q: Query, traces: seq<Trace>, metrics: MetricsTable, limit: nat, offset: nat): seq<ResultRow>
  {
    var ft := Filtered(q, traces);
    OrderedHasKeys(q, GroupBase(ft).Keys, GroupBase(ft), GroupMetrics(metrics, ft));
    Rows(Page(AllSessions(q, traces, metrics), limit, offset), GroupBase(ft), GroupMetrics(metrics, ft), GroupUsers(ft))
  }

  function CountSessions(q: Query, traces: seq<Trace>): nat {
    |SessionIds(Filtered(q, traces))|
  }

  // ---- The page-first statement ------------------------------------------------------------

  /** page_traces: every page row CROSS JOINed with the matching traces of its session. */
  function PageTraces(q: Query, page: seq<string>, traces: seq<Trace>): seq<Trace> {
    if page == [] then []
    else Select(OnPage(q, page[0]), traces) + PageTraces(q, page[1..], traces)
  }

  /** The page joined with page_base and the metrics source, in the final order. */
  ghost function FinalRows(q: Query, page: seq<string>, base: BaseTable, sm: MetricTable, su: UserTable): seq<ResultRow> {
    var joined := set id | id in page && id in base;
    OrderedHasKeys(q, joined, base, sm);
    Rows(Ordered(q, joined, base, sm), base, sm, su)
  }

  /** Trace-ranked keys: `rankScan` feeds session_base, `pageScan` the re-read. */
  ghost function TraceRankedList(q: Query, rankScan: seq<Trace>, pageScan: seq<Trace>, metrics: MetricsTable,
                                 limit: nat, offset: nat): seq<ResultRow>
  {
    TraceRankedPage(q, GroupBase(Filtered(q, rankScan)), pageScan, metrics, limit, offset)
  }

  ghost function TraceRankedPage(q: Query, sessionBase: BaseTable, pageScan: seq<Trace>, metrics: MetricsTable,
                                 limit: nat, offset: nat): seq<ResultRow>
  {
    var page := Page(Ordered(q, sessionBase.Keys, sessionBase, map[]), limit, offset);
    var pageTraces := PageTraces(q, page, pageScan);
    FinalRows(q, page, GroupBase(pageTraces), GroupMetrics(metrics, pageTraces), GroupUsers(pageTraces))
  }

  /** Metric-ranked keys: page_metrics carries the aggregate of the page rows. */
  ghost function MetricRankedList(q: Query, rankScan: seq<Trace>, pageScan: seq<Trace>, metrics: MetricsTable,
                                  limit: nat, offset: nat): seq<ResultRow>
  {
    MetricRankedPage(q, GroupMetrics(metrics, Filtered(q, rankScan)), pageScan, metrics, limit, offset)
  }

  ghost function MetricRankedPage(q: Query, sessionMetrics: MetricTable, pageScan: seq<Trace>, metrics: MetricsTable,
                                  limit: nat, offset: nat): seq<ResultRow>
  {
    var page := Page(Ordered(q, sessionMetrics.Keys, map[], sessionMetrics), limit, offset);
    var pageMetrics := map id | id in page && id in sessionMetrics :: sessionMetrics[id];
    var pageTraces := PageTraces(q, page, pageScan);
    FinalRows(q, page, GroupBase(pageTraces), pageMetrics, GroupUsers(pageTraces))
  }

  ghost function PageFirstList(q: Query, rankScan: seq<Trace>, pageScan: seq<Trace>, metrics: MetricsTable,
                               limit: nat, offset: nat): seq<ResultRow>
  {
    if q.sortKey.Metric? then MetricRankedList(q, rankScan, pageScan, metrics, limit, offset)
    else TraceRankedList(q, rankScan, pageScan, metrics, limit, offset)
  }

  // ---- Sorting session ids -------------------------------------------------------------------

  function IdsOf(page: seq<string>): set<string> {
    set id | id in page
  }

  lemma OrderedHasKeys(q: Query, ids: set<string>, base: BaseTable, sm: MetricTable)
    ensures forall id :: id in Ordered(q, ids, base, sm) <==> id in ids
    ensures |Ordered(q, ids, base, sm)| == |ids|
    ensures Ascending(Less(q.dir), RankBy(q.sortKey, base, sm), Ordered(q, ids, base, sm))
  {
    RankLessStrictTotal(q.dir);
    OrderBySorts(Less(q.dir), RankBy(q.sortKey, base, sm), ids);
  }

  /** Sorting reads nothing but the key values. */
  lemma OrderedReadsKeys(q: Query, ids: set<string>, base: BaseTable, sm: MetricTable, base': BaseTable, sm': MetricTable)
    requires forall id :: id in ids ==> KeyValue(q.sortKey, id, base, sm) == KeyValue(q.sortKey, id, base', sm')
    ensures Ordered(q, ids, base, sm) == Ordered(q, ids, base', sm')
  {
    RankLessStrictTotal(q.dir);
    OrderByCongruent(Less(q.dir), RankBy(q.sortKey, base, sm),
                     RankBy(q.sortKey, base', sm'), ids);
  }

  /** Sorting a page again by the same key values gives the page back. */
  lemma ReorderedPage(q: Query, ids: set<string>, base: BaseTable, sm: MetricTable,
                      page: seq<string>, limit: nat, offset: nat)
    requires page == Page(Ordered(q, ids, base, sm), limit, offset)
    ensures Ordered(q, IdsOf(page), base, sm) == page
    ensures forall id :: id in page ==> id in ids
    ensures forall i, j :: 0 <= i < j < |page| ==> page[i] != page[j]
  {
    var rank := RankBy(q.sortKey, base, sm);
    RankLessStrictTotal(q.dir);
    OrderedHasKeys(q, ids, base, sm);
    PageOfAscending(Less(q.dir), rank, Ordered(q, ids, base, sm), limit, offset);
    OrderByOfAscending(Less(q.dir), rank, page);
  }

  // ---- Aggregates do not depend on the scan order ---------------------------------------------

  lemma {:induction false} SelectCounts(p: Trace -> bool, ts: seq<Trace>, x: Trace)
    ensures multiset(Select(p, ts))[x] == if p(x) then multiset(ts)[x] else 0
  {
    if ts != [] {
      SelectCounts(p, ts[1..], x);
      assert ts == [ts[0]] + ts[1..];
    }
  }

  lemma {:induction false} SumSplits(metrics: MetricsTable, m: Measure, a: seq<Trace>, b: seq<Trace>)
    ensures Sum(metrics, m, a + b) == Plus(Sum(metrics, m, a), Sum(metrics, m, b))
  {
    if a == [] {
      assert a + b == b;
    } else {
      SumSplits(metrics, m, a[1..], b);
      assert (a + b)[1..] == a[1..] + b;
    }
  }

  lemma SumRemoves(metrics: MetricsTable, m: Measure, b: seq<Trace>, i: nat)
    requires i < |b|
    ensures Sum(metrics, m, b) == Plus(MeasureOf(metrics, m, b[i]), Sum(metrics, m, b[..i] + b[i + 1..]))
  {
    SumSplits(metrics, m, b[..i], b[i..]);
    SumSplits(metrics, m, b[..i], b[i + 1..]);
    assert b == b[..i] + b[i..];
    assert b[i..][1..] == b[i + 1..];
  }

  lemma RemoveOne(a: seq<Trace>, b: seq<Trace>, i: nat)
    requires a != [] && i < |b| && b[i] == a[0] && multiset(a) == multiset(b)
    ensures multiset(b[..i] + b[i + 1..]) == multiset(a[1..])
  {
    var x := a[0];
    assert a == [x] + a[1..];
    assert b == b[..i] + [x] + b[i + 1..];
    var rest := b[..i] + b[i + 1..];
    assert multiset(b) == multiset(rest) + multiset{x};
    assert multiset(rest) == multiset(b) - multiset{x};
    assert multiset(a[1..]) == multiset(a) - multiset{x};
  }

  lemma {:induction false} SumOfPermutation(metrics: MetricsTable, m: Measure, a: seq<Trace>, b: seq<Trace>)
    requires multiset(a) == multiset(b)
    ensures Sum(metrics, m, a) == Sum(metrics, m, b)
  {
    if a == [] {
      assert |multiset(b)| == 0;
    } else {
      assert a[0] in multiset(b);
      var i :| 0 <= i < |b| && b[i] == a[0];
      RemoveOne(a, b, i);
      SumOfPermutation(metrics, m, a[1..], b[..i] + b[i + 1..]);
      SumRemoves(metrics, m, b, i);
    }
  }

  lemma {:induction false} MinTimeIsLeast(ts: seq<Trace>)
    requires ts != []
    ensures forall t :: t in ts ==> MinTime(ts) <= t.timestamp
    ensures exists t :: t in ts && MinTime(ts) == t.timestamp
  {
    assert ts == [ts[0]] + ts[1..];
    if |ts| > 1 { MinTimeIsLeast(ts[1..]); }
    assert ts[0] in ts;
  }

  lemma {:induction false} MaxTimeIsGreatest(ts: seq<Trace>)
    requires ts != []
    ensures forall t :: t in ts ==> t.timestamp <= MaxTime(ts)
    ensures exists t :: t in ts && MaxTime(ts) == t.timestamp
  {
    assert ts == [ts[0]] + ts[1..];
    if |ts| > 1 { MaxTimeIsGreatest(ts[1..]); }
    assert ts[0] in ts;
  }

  lemma {:induction false} MaxEnvironmentIsGreatest(ts: seq<Trace>)
    requires ts != []
    ensures forall t :: t in ts ==> !TextLess(MaxEnvironment(ts), t.environment)
    ensures exists t :: t in ts && MaxEnvironment(ts) == t.environment
  {
    assert ts == [ts[0]] + ts[1..];
    TextLessIrreflexive(ts[0].environment);
    if |ts| > 1 {
      MaxEnvironmentIsGreatest(ts[1..]);
      var m := MaxEnvironment(ts[1..]);
      forall t | t in ts[1..] ensures TextLess(m, ts[0].environment) ==> !TextLess(ts[0].environment, t.environment) {
        if TextLess(m, ts[0].environment) && TextLess(ts[0].environment, t.environment) {
          TextLessTransitive(m, ts[0].environment, t.environment);
        }
      }
    }
    assert ts[0] in ts;
  }

  /** Every aggregate of a group is the same for any order of its rows. */
  lemma BaseOfPermutation(a: seq<Trace>, b: seq<Trace>)
    requires a != [] && multiset(a) == multiset(b)
    ensures b != [] && BaseOf(a) == BaseOf(b)
  {
    SameMembers(a, b);
    MinTimeIsLeast(a); MinTimeIsLeast(b);
    MaxTimeIsGreatest(a); MaxTimeIsGreatest(b);
    MaxEnvironmentIsGreatest(a); MaxEnvironmentIsGreatest(b);
    TextLessConnected(MaxEnvironment(a), MaxEnvironment(b));
  }

  lemma MetricsOfPermutation(metrics: MetricsTable, a: seq<Trace>, b: seq<Trace>)
    requires multiset(a) == multiset(b)
    ensures MetricsOf(metrics, a) == MetricsOf(metrics, b)
  {
    forall m: Measure ensures SumColumn(metrics, m, a) == SumColumn(metrics, m, b) {
      SumOfPermutation(metrics, m, a, b);
    }
  }

  // ---- Two row lists that agree on a set of sessions ---------------------------------------------

  lemma SessionIdsMember(id: string, ts: seq<Trace>)
    ensures id in SessionIds(ts) <==> OfSession(id, ts) != []
  {
    SelectMembers(InSession(id), ts);
    if OfSession(id, ts) != [] {
      assert OfSession(id, ts)[0] in OfSession(id, ts);
    }
    if id in SessionIds(ts) {
      var r := NonEmptyGroup(id, ts);
    }
  }

  lemma UsersMember(id: string, ts: seq<Trace>)
    ensures id in GroupUsers(ts) <==> UsersOf(OfSession(id, ts)) != {}
  {
    SelectMembers(HasUser, ts);
    SelectMembers(InSession(id), ts);
    if id in GroupUsers(ts) {
      var t :| t in Select(HasUser, ts) && t.session == Some(id);
      assert t in OfSession(id, ts) && HasUser(t);
      assert t.user.value in UsersOf(OfSession(id, ts));
    }
    if UsersOf(OfSession(id, ts)) != {} {
      var u :| u in UsersOf(OfSession(id, ts));
      var t :| t in OfSession(id, ts) && HasUser(t) && t.user.value == u;
      assert t in Select(HasUser, ts) && t.session == Some(id);
    }
  }

  lemma SameMembers(a: seq<Trace>, b: seq<Trace>)
    requires multiset(a) == multiset(b)
    ensures |a| == |b|
    ensures forall t :: t in a <==> t in b
  {
    assert |a| == |multiset(a)| == |multiset(b)| == |b|;
    assert forall t :: t in a <==> t in multiset(a);
    assert forall t :: t in b <==> t in multiset(b);
  }

  lemma UsersOfPermutation(a: seq<Trace>, b: seq<Trace>)
    requires multiset(a) == multiset(b)
    ensures UsersOf(a) == UsersOf(b)
  {
    SameMembers(a, b);
  }

  lemma GroupsAgree(metrics: MetricsTable, id: string, a: seq<Trace>, b: seq<Trace>)
    requires multiset(OfSession(id, a)) == multiset(OfSession(id, b))
    ensures id in SessionIds(a) <==> id in SessionIds(b)
    ensures id in SessionIds(a) ==> GroupBase(a)[id] == GroupBase(b)[id]
    ensures id in SessionIds(a) ==> GroupMetrics(metrics, a)[id] == GroupMetrics(metrics, b)[id]
    ensures id in GroupUsers(a) <==> id in GroupUsers(b)
    ensures id in GroupUsers(a) ==> GroupUsers(a)[id] == GroupUsers(b)[id]
  {
    var x, y := OfSession(id, a), OfSession(id, b);
    assert |x| == |multiset(x)| == |multiset(y)| == |y|;
    SessionIdsMember(id, a);
    SessionIdsMember(id, b);
    if x != [] {
      BaseOfPermutation(x, y);
      MetricsOfPermutation(metrics, x, y);
    }
    UsersOfPermutation(x, y);
    UsersMember(id, a);
    UsersMember(id, b);
  }

  /** Permuting the table permutes every session's group. */
  lemma ScansAgree(q: Query, a: seq<Trace>, b: seq<Trace>, id: string)
    requires multiset(a) == multiset(b)
    ensures multiset(OfSession(id, Filtered(q, a))) == multiset(OfSession(id, Filtered(q, b)))
  {
    var x, y := OfSession(id, Filtered(q, a)), OfSession(id, Filtered(q, b));
    forall t: Trace ensures multiset(x)[t] == multiset(y)[t] {
      SelectCounts(InSession(id), Filtered(q, a), t);
      SelectCounts(InSession(id), Filtered(q, b), t);
      SelectCounts(Matching(q), a, t);
      SelectCounts(Matching(q), b, t);
    }
  }

  lemma {:induction false} SelectAppends(p: Trace -> bool, a: seq<Trace>, b: seq<Trace>)
    ensures Select(p, a + b) == Select(p, a) + Select(p, b)
  {
    if a == [] {
      assert a + b == b;
    } else {
      SelectAppends(p, a[1..], b);
      assert (a + b)[1..] == a[1..] + b;
    }
  }

  /** The re-read holds exactly the matching traces of the page's sessions. */
  lemma {:induction false} PageTracesAgree(q: Query, page: seq<string>, traces: seq<Trace>, id: string)
    requires forall i, j :: 0 <= i < j < |page| ==> page[i] != page[j]
    ensures multiset(OfSession(id, PageTraces(q, page, traces)))
         == if id in page then multiset(OfSession(id, Filtered(q, traces))) else multiset{}
  {
    var mine := InSession(id);
    if page != [] {
      var head := Select(OnPage(q, page[0]), traces);
      var tail := PageTraces(q, page[1..], traces);
      PageTracesAgree(q, page[1..], traces, id);
      SelectAppends(mine, head, tail);
      forall t: Trace
        ensures multiset(Select(mine, head))[t]
             == if id == page[0] then multiset(OfSession(id, Filtered(q, traces)))[t] else 0
      {
        SelectCounts(mine, head, t);
        SelectCounts(OnPage(q, page[0]), traces, t);
        SelectCounts(mine, Filtered(q, traces), t);
        SelectCounts(Matching(q), traces, t);
      }
      assert OfSession(id, PageTraces(q, page, traces)) == Select(mine, head) + Select(mine, tail);
      assert page == [page[0]] + page[1..];
    }
  }

  // ---- The rewrite preserves the answer ------------------------------------------------------------

  lemma RowsAgree(ids: seq<string>, base: BaseTable, sm: MetricTable, su: UserTable,
                  base': BaseTable, sm': MetricTable, su': UserTable)
    requires forall id :: id in ids ==> id in base && id in base' && base[id] == base'[id]
    requires forall id :: id in ids ==> id in sm && id in sm' && sm[id] == sm'[id]
    requires forall id :: id in ids ==> (id in su <==> id in su') && (id in su ==> su[id] == su'[id])
    ensures Rows(ids, base, sm, su) == Rows(ids, base', sm', su')
  {
    forall i | 0 <= i < |ids|
      ensures Join(ids[i], base, sm, su) == Join(ids[i], base', sm', su')
    {
      assert ids[i] in ids;
    }
  }

  /** The final join and sort of a page give the frozen rows of that page. */
  lemma FinalRowsAgree(q: Query, page: seq<string>, base: BaseTable, sm: MetricTable, su: UserTable,
                       base': BaseTable, sm': MetricTable, su': UserTable, limit: nat, offset: nat)
    requires page == Page(Ordered(q, base.Keys, base, sm), limit, offset)
    requires forall id :: id in page ==> id in base && id in base' && base[id] == base'[id]
    requires forall id :: id in page ==> id in sm && id in sm' && sm[id] == sm'[id]
    requires forall id :: id in page ==> (id in su <==> id in su') && (id in su ==> su[id] == su'[id])
    ensures FinalRows(q, page, base', sm', su') == Rows(page, base, sm, su)
  {
    ReorderedPage(q, base.Keys, base, sm, page, limit, offset);
    var joined := set id | id in page && id in base';
    assert joined == IdsOf(page);
    OrderedReadsKeys(q, joined, base', sm', base, sm);
    RowsAgree(page, base', sm', su', base, sm, su);
  }

  lemma TraceRankedMatchesLegacy(q: Query, traces: seq<Trace>, pageScan: seq<Trace>,
                                 metrics: MetricsTable, limit: nat, offset: nat)
    requires !q.sortKey.Metric?
    requires multiset(traces) == multiset(pageScan)
    ensures TraceRankedPage(q, GroupBase(Filtered(q, traces)), pageScan, metrics, limit, offset)
         == LegacyList(q, traces, metrics, limit, offset)
  {
    var ft := Filtered(q, traces);
    var base, sm, su := GroupBase(ft), GroupMetrics(metrics, ft), GroupUsers(ft);
    OrderedReadsKeys(q, base.Keys, base, map[], base, sm);
    var page := Page(Ordered(q, base.Keys, base, sm), limit, offset);
    ReorderedPage(q, base.Keys, base, sm, page, limit, offset);
    PageGroupsAgree(q, page, traces, pageScan, metrics);
    var pageTraces := PageTraces(q, page, pageScan);
    FinalRowsAgree(q, page, base, sm, su, GroupBase(pageTraces), GroupMetrics(metrics, pageTraces), GroupUsers(pageTraces), limit, offset);
  }

  lemma MetricRankedMatchesLegacy(q: Query, traces: seq<Trace>, pageScan: seq<Trace>,
                                  metrics: MetricsTable, limit: nat, offset: nat)
    requires q.sortKey.Metric?
    requires multiset(traces) == multiset(pageScan)
    ensures MetricRankedPage(q, GroupMetrics(metrics, Filtered(q, traces)), pageScan, metrics, limit, offset)
         == LegacyList(q, traces, metrics, limit, offset)
  {
    hide OrderBy, Select, BaseOf, MetricsOf, UsersOf;
    var ft := Filtered(q, traces);
    var base, sm, su := GroupBase(ft), GroupMetrics(metrics, ft), GroupUsers(ft);
    assert base.Keys == sm.Keys;
    OrderedReadsKeys(q, sm.Keys, map[], sm, base, sm);
    var page := Page(Ordered(q, base.Keys, base, sm), limit, offset);
    ReorderedPage(q, base.Keys, base, sm, page, limit, offset);
    PageGroupsAgree(q, page, traces, pageScan, metrics);
    var pageTraces := PageTraces(q, page, pageScan);
    var pageMetrics := map id | id in page && id in sm :: sm[id];
    FinalRowsAgree(q, page, base, sm, su, GroupBase(pageTraces), pageMetrics, GroupUsers(pageTraces), limit, offset);
  }

  lemma SameGroups(q: Query, a: seq<Trace>, b: seq<Trace>, metrics: MetricsTable)
    requires multiset(a) == multiset(b)
    ensures GroupBase(Filtered(q, a)) == GroupBase(Filtered(q, b))
    ensures GroupMetrics(metrics, Filtered(q, a)) == GroupMetrics(metrics, Filtered(q, b))
  {
    forall id: string
      ensures multiset(OfSession(id, Filtered(q, a))) == multiset(OfSession(id, Filtered(q, b)))
    {
      ScansAgree(q, a, b, id);
    }
    EqualGroups(metrics, Filtered(q, a), Filtered(q, b));
  }

  lemma EqualGroups(metrics: MetricsTable, x: seq<Trace>, y: seq<Trace>)
    requires forall id: string :: multiset(OfSession(id, x)) == multiset(OfSession(id, y))
    ensures GroupBase(x) == GroupBase(y)
    ensures GroupMetrics(metrics, x) == GroupMetrics(metrics, y)
  {
    hide BaseOf, MetricsOf, Select;
    forall id: string ensures id in SessionIds(x) <==> id in SessionIds(y) {
      GroupsAgree(metrics, id, x, y);
    }
    assert SessionIds(x) == SessionIds(y);
    forall id: string | id in SessionIds(x) ensures GroupBase(x)[id] == GroupBase(y)[id] {
      GroupsAgree(metrics, id, x, y);
    }
    forall id: string | id in SessionIds(x) ensures GroupMetrics(metrics, x)[id] == GroupMetrics(metrics, y)[id] {
      GroupsAgree(metrics, id, x, y);
    }
  }

  /** The groups of the re-read are the groups of the whole table, session by session. */
  lemma PageGroupsAgree(q: Query, page: seq<string>, traces: seq<Trace>, pageScan: seq<Trace>, metrics: MetricsTable)
    requires multiset(traces) == multiset(pageScan)
    requires forall i, j :: 0 <= i < j < |page| ==> page[i] != page[j]
    requires forall id :: id in page ==> id in SessionIds(Filtered(q, traces))
    ensures var a, b := PageTraces(q, page, pageScan), Filtered(q, traces);
            forall id :: id in page ==>
              && id in GroupBase(a) && id in GroupBase(b) && GroupBase(a)[id] == GroupBase(b)[id]
              && id in GroupMetrics(metrics, a) && id in GroupMetrics(metrics, b)
              && GroupMetrics(metrics, a)[id] == GroupMetrics(metrics, b)[id]
              && (id in GroupUsers(a) <==> id in GroupUsers(b))
              && (id in GroupUsers(a) ==> GroupUsers(a)[id] == GroupUsers(b)[id])
  {
    forall id | id in page
      ensures var a, b := PageTraces(q, page, pageScan), Filtered(q, traces);
              && id in GroupBase(a) && id in GroupBase(b) && GroupBase(a)[id] == GroupBase(b)[id]
              && id in GroupMetrics(metrics, a) && id in GroupMetrics(metrics, b)
              && GroupMetrics(metrics, a)[id] == GroupMetrics(metrics, b)[id]
              && (id in GroupUsers(a) <==> id in GroupUsers(b))
              && (id in GroupUsers(a) ==> GroupUsers(a)[id] == GroupUsers(b)[id])
    {
      PageTracesAgree(q, page, pageScan, id);
      ScansAgree(q, traces, pageScan, id);
      GroupsAgree(metrics, id, PageTraces(q, page, pageScan), Filtered(q, traces));
    }
  }

  /**
   The rewrite keeps the meaning: for every table, metrics table, filter, sort
   key, direction, limit and offset, and whatever order the three scans deliver.
   */
  lemma PageFirstMatchesLegacy(q: Query, traces: seq<Trace>, rankScan: seq<Trace>, pageScan: seq<Trace>,
                               metrics: MetricsTable, limit: nat, offset: nat)
    requires multiset(rankScan) == multiset(traces) == multiset(pageScan)
    ensures PageFirstList(q, rankScan, pageScan, metrics, limit, offset) == LegacyList(q, traces, metrics, limit, offset)
  {
    SameGroups(q, traces, rankScan, metrics);
    if q.sortKey.Metric? {
      MetricRankedMatchesLegacy(q, traces, pageScan, metrics, limit, offset);
    } else {
      TraceRankedMatchesLegacy(q, traces, pageScan, metrics, limit, offset);
    }
  }

  // ---- The order of the rows shown -------------------------------------------------------------------

  /** What a sort key reads from a row of the response. */
  function RowKey(k: SortKey, row: ResultRow): Value {
    match k
    case SessionId => Text(row.id)
    case CreatedAt => Number(row.base.createdAt)
    case CountTraces => Number(row.base.countTraces)
    case SessionDuration => Number(row.base.duration)
    case Metric(m) => if row.metrics.Some? then row.metrics.value.Column(m) else Null
  }

  predicate RowBefore(q: Query, a: ResultRow, b: ResultRow) {
    RankLess(q.dir, Rank(RowKey(q.sortKey, a), a.id), Rank(RowKey(q.sortKey, b), b.id))
  }

  /** A page is in the requested order by the values it shows, ties by id; NULL sorts first when ascending. */
  lemma PageIsInOrder(q: Query, traces: seq<Trace>, rankScan: seq<Trace>, pageScan: seq<Trace>,
                      metrics: MetricsTable, limit: nat, offset: nat)
    requires multiset(rankScan) == multiset(traces) == multiset(pageScan)
    ensures var rows := PageFirstList(q, rankScan, pageScan, metrics, limit, offset);
            forall i, j :: 0 <= i < j < |rows| ==> RowBefore(q, rows[i], rows[j])
  {
    PageFirstMatchesLegacy(q, traces, rankScan, pageScan, metrics, limit, offset);
    LegacyIsInOrder(q, traces, metrics, limit, offset);
  }

  lemma LegacyIsInOrder(q: Query, traces: seq<Trace>, metrics: MetricsTable, limit: nat, offset: nat)
    ensures var rows := LegacyList(q, traces, metrics, limit, offset);
            forall i, j :: 0 <= i < j < |rows| ==> RowBefore(q, rows[i], rows[j])
  {
    var ft := Filtered(q, traces);
    var base, sm := GroupBase(ft), GroupMetrics(metrics, ft);
    var all := AllSessions(q, traces, metrics);
    OrderedHasKeys(q, base.Keys, base, sm);
    PageOfAscending(Less(q.dir), RankBy(q.sortKey, base, sm), all, limit, offset);
    RowsAreInOrder(q, Page(all, limit, offset), base, sm, GroupUsers(ft));
  }

  lemma RowsAreInOrder(q: Query, page: seq<string>, base: BaseTable, sm: MetricTable, su: UserTable)
    requires Ascending(Less(q.dir), RankBy(q.sortKey, base, sm), page)
    requires forall id :: id in page ==> id in base
    ensures var rows := Rows(page, base, sm, su);
            forall i, j :: 0 <= i < j < |rows| ==> RowBefore(q, rows[i], rows[j])
  {
    var rows := Rows(page, base, sm, su);
    forall i, j | 0 <= i < j < |rows| ensures RowBefore(q, rows[i], rows[j]) {
      assert page[i] in page && page[j] in page;
      assert RankBy(q.sortKey, base, sm)(page[i]) == Rank(RowKey(q.sortKey, rows[i]), rows[i].id);
      assert RankBy(q.sortKey, base, sm)(page[j]) == Rank(RowKey(q.sortKey, rows[j]), rows[j].id);
    }
  }

  // ---- Walking the pages ---------------------------------------------------------------------------

  /** The ids of the rows of pages first, first + 1, .., last - 1 (page numbers from 1). */
  ghost function PageIds(list: nat -> seq<ResultRow>, limit: nat, first: nat, last: nat): seq<string>
    requires 1 <= first <= last
    decreases last - first
  {
    if first == last then [] else RowIds(list((first - 1) * limit)) + PageIds(list, limit, first + 1, last)
  }

  function RowIds(rows: seq<ResultRow>): seq<string> {
    seq(|rows|, i requires 0 <= i < |rows| => rows[i].id)
  }

  function TotalPages(totalItems: nat, limit: nat): nat
    requires limit > 0
  {
    (totalItems + limit - 1) / limit
  }

  lemma PageRowIds(q: Query, traces: seq<Trace>, rankScan: seq<Trace>, pageScan: seq<Trace>, metrics: MetricsTable,
                   limit: nat, offset: nat)
    requires multiset(rankScan) == multiset(traces) == multiset(pageScan)
    ensures RowIds(PageFirstList(q, rankScan, pageScan, metrics, limit, offset)) == Page(AllSessions(q, traces, metrics), limit, offset)
  {
    PageFirstMatchesLegacy(q, traces, rankScan, pageScan, metrics, limit, offset);
  }

  lemma {:induction false} PageIdsArePages(list: nat -> seq<ResultRow>, all: seq<string>, limit: nat, first: nat, last: nat)
    requires 1 <= first <= last
    requires forall offset: nat :: RowIds(list(offset)) == Page(all, limit, offset)
    ensures PageIds(list, limit, first, last) == Pages(all, limit, first, last)
    decreases last - first
  {
    if first < last {
      PageIdsArePages(list, all, limit, first + 1, last);
    }
  }

  /** AllSessions lists each session with a matching trace once. */
  lemma AllSessionsOnce(q: Query, scan: seq<Trace>, metrics: MetricsTable)
    ensures |AllSessions(q, scan, metrics)| == CountSessions(q, scan)
    ensures var ids := AllSessions(q, scan, metrics); forall i, j :: 0 <= i < j < |ids| ==> ids[i] != ids[j]
    ensures forall id :: id in AllSessions(q, scan, metrics) <==> exists t :: t in scan && Matches(q, t) && t.session == Some(id)
  {
    var ft := Filtered(q, scan);
    var base, sm := GroupBase(ft), GroupMetrics(metrics, ft);
    RankLessStrictTotal(q.dir);
    OrderedHasKeys(q, base.Keys, base, sm);
    assert base.Keys == SessionIds(ft);
    SelectMembers(Matching(q), scan);
    forall id: string
      ensures id in SessionIds(ft) <==> exists t :: t in scan && Matches(q, t) && t.session == Some(id)
    {
      if id in SessionIds(ft) {
        var t :| t in ft && t.session == Some(id);
        assert t in scan && Matches(q, t);
      }
      if t :| t in scan && Matches(q, t) && t.session == Some(id) {
        assert t in ft;
      }
    }
  }

  /** The scan orders of one table: of the ranking and of the re-read, for each page, by its offset. */
  ghost predicate ScanOrders(traces: seq<Trace>, rankScan: nat -> seq<Trace>, pageScan: nat -> seq<Trace>) {
    forall offset: nat :: multiset(rankScan(offset)) == multiset(traces) == multiset(pageScan(offset))
  }

  /**
   Pages 1 .. ceil(totalItems / limit) list every matching session exactly once,
   in the requested order, and totalItems is their number, whatever order each
   page's own scans and the count's scan deliver.
   */
  lemma PagesEnumerateSessions(q: Query, traces: seq<Trace>, rankScan: nat -> seq<Trace>, pageScan: nat -> seq<Trace>,
                               countScan: seq<Trace>, metrics: MetricsTable, limit: nat)
    requires limit > 0 && ScanOrders(traces, rankScan, pageScan) && multiset(countScan) == multiset(traces)
    ensures var list := (offset: nat) => PageFirstList(q, rankScan(offset), pageScan(offset), metrics, limit, offset);
            var total := CountSessions(q, countScan);
            var ids := PageIds(list, limit, 1, TotalPages(total, limit) + 1);
            && ids == AllSessions(q, traces, metrics)
            && |ids| == total
            && (forall i, j :: 0 <= i < j < |ids| ==> ids[i] != ids[j])
            && (forall id :: id in ids <==> exists t :: t in traces && Matches(q, t) && t.session == Some(id))
  {
    hide AllSessions, PageFirstList, CountSessions;
    var list := (offset: nat) => PageFirstList(q, rankScan(offset), pageScan(offset), metrics, limit, offset);
    var all := AllSessions(q, traces, metrics);
    forall offset: nat ensures RowIds(list(offset)) == Page(all, limit, offset) {
      PageRowIds(q, traces, rankScan(offset), pageScan(offset), metrics, limit, offset);
    }
    AllSessionsOnce(q, traces, metrics);
    CountsAgree(q, traces, countScan);
    EveryPage(list, all, limit);
  }

  lemma CountsAgree(q: Query, a: seq<Trace>, b: seq<Trace>)
    requires multiset(a) == multiset(b)
    ensures CountSessions(q, a) == CountSessions(q, b)
  {
    SameGroups(q, a, b, map[]);
    assert GroupBase(Filtered(q, a)).Keys == SessionIds(Filtered(q, a));
    assert GroupBase(Filtered(q, b)).Keys == SessionIds(Filtered(q, b));
  }

  lemma EveryPage(list: nat -> seq<ResultRow>, all: seq<string>, limit: nat)
    requires limit > 0
    requires forall offset: nat :: RowIds(list(offset)) == Page(all, limit, offset)
    ensures PageIds(list, limit, 1, TotalPages(|all|, limit) + 1) == all
  {
    var n := TotalPages(|all|, limit);
    PageIdsArePages(list, all, limit, 1, n + 1);
    PagesCover(all, limit, 1, n + 1);
  }

  lemma TotalPagesIs(total: nat, limit: nat)
    requires limit > 0
    ensures limit * TotalPages(total, limit) <= total + limit - 1 < limit * TotalPages(total, limit) + limit
  {
  }

  lemma Times(limit: nat, a: int, b: int)
    requires a <= b
    ensures limit * a <= limit * b
  {
    assert limit * (b - a) >= 0;
  }

  lemma OneLess(limit: nat, page: nat)
    requires page >= 1
    ensures (page - 1) * limit == limit * page - limit
  {
  }

  /** And none of these pages is empty, as every later one is. */
  lemma PagesWithSessions<T>(all: seq<T>, limit: nat, page: nat)
    requires limit > 0 && page >= 1
    ensures page <= TotalPages(|all|, limit) <==> Page(all, limit, (page - 1) * limit) != []
  {
    hide TotalPages, Page;
    var n := TotalPages(|all|, limit);
    PageIs(all, limit, (page - 1) * limit);
    TotalPagesIs(|all|, limit);
    OneLess(limit, page);
    if page <= n { Times(limit, page, n); } else { Times(limit, n + 1, page); OneLess(limit, n + 1); }
  }
}
