/**
 What a row of the session list shows, read off the table: the figures of the matching
 traces of its session, and the order of the rows by the values they show.
 */
module SessionRows {
  import opened Options
  import opened Orders
  import opened SessionList

  /** The trace counts for the session: of the project, not deleted, in the session, and let through by the filters. */
  predicate Belongs(q: Query, t: Trace, id: string) {
    t.project == q.project && !t.deleted && t.session == Some(id) && id != "" && q.filter(t)
  }

  /** All of them, as often as the table has them. */
  ghost predicate IsGroup(q: Query, traces: seq<Trace>, id: string, group: multiset<Trace>) {
    forall t: Trace :: group[t] == if Belongs(q, t, id) then multiset(traces)[t] else 0
  }

  // ---- Totals ---------------------------------------------------------------------------------

  /** The trace has metrics with this measure. */
  predicate HasMeasure(metrics: MetricsTable, m: Measure, t: Trace) {
    (t.project, t.id) in metrics && m in metrics[(t.project, t.id)]
  }

  function Amount(metrics: MetricsTable, m: Measure, t: Trace): int {
    if HasMeasure(metrics, m, t) then metrics[(t.project, t.id)][m] else 0
  }

  /** Taken out one after the other, in whatever order. */
  ghost function Total(metrics: MetricsTable, m: Measure, group: multiset<Trace>): int
    decreases |group|
  {
    if group == multiset{} then 0
    else
      var t :| t in group;
      Amount(metrics, m, t) + Total(metrics, m, group - multiset{t})
  }

  lemma TakenOut<T>(group: multiset<T>, t: T, x: T)
    requires t in group && x in group && t != x
    ensures x in group - multiset{t} && t in group - multiset{x}
    ensures group - multiset{t} - multiset{x} == group - multiset{x} - multiset{t}
    ensures |group - multiset{t}| < |group| && |group - multiset{x}| < |group|
  {
  }

  lemma TotalOf(metrics: MetricsTable, m: Measure, group: multiset<Trace>) returns (t: Trace)
    requires group != multiset{}
    ensures t in group && Total(metrics, m, group) == Amount(metrics, m, t) + Total(metrics, m, group - multiset{t})
  {
    t :| t in group && Total(metrics, m, group) == Amount(metrics, m, t) + Total(metrics, m, group - multiset{t});
  }

  /** Whichever trace is taken out, the total falls by its amount. */
  lemma {:induction false} TotalFalls(metrics: MetricsTable, m: Measure, group: multiset<Trace>, x: Trace)
    requires x in group
    ensures Total(metrics, m, group) == Amount(metrics, m, x) + Total(metrics, m, group - multiset{x})
    decreases |group|
  {
    hide Amount, Total;
    var t := TotalOf(metrics, m, group);
    if t != x {
      TakenOut(group, t, x);
      TotalFalls(metrics, m, group - multiset{t}, x);
      TotalFalls(metrics, m, group - multiset{x}, t);
    }
  }

  lemma HeadOfScan(ts: seq<Trace>)
    requires ts != []
    ensures ts[0] in multiset(ts) && multiset(ts) - multiset{ts[0]} == multiset(ts[1..])
    ensures forall t :: t in ts <==> t == ts[0] || t in ts[1..]
  {
    assert ts == [ts[0]] + ts[1..];
  }

  /** SUM over a scan is NULL exactly if no row has the measure. */
  lemma {:induction false} SumIsNull(metrics: MetricsTable, m: Measure, ts: seq<Trace>)
    ensures Sum(metrics, m, ts) == None <==> forall t :: t in ts ==> !HasMeasure(metrics, m, t)
  {
    if ts != [] {
      SumIsNull(metrics, m, ts[1..]);
      HeadOfScan(ts);
      assert ts[0] in ts && forall t :: t in ts[1..] ==> t in ts;
      assert Sum(metrics, m, ts) == None <==> !HasMeasure(metrics, m, ts[0]) && Sum(metrics, m, ts[1..]) == None;
    }
  }

  function OrNothing(sum: Option<int>): int {
    if sum.Some? then sum.value else 0
  }

  /** Otherwise it is the total of the rows. */
  lemma {:induction false} SumIsTotal(metrics: MetricsTable, m: Measure, ts: seq<Trace>)
    ensures OrNothing(Sum(metrics, m, ts)) == Total(metrics, m, multiset(ts))
  {
    if ts != [] {
      SumIsTotal(metrics, m, ts[1..]);
      HeadOfScan(ts);
      TotalFalls(metrics, m, multiset(ts), ts[0]);
      hide Total;
    }
  }

  /** What a figure shows: NULL or 0 without any measure, else the total. */
  ghost predicate FigureIs(v: Value, metrics: MetricsTable, m: Measure, orZero: bool, group: multiset<Trace>) {
    if exists t :: t in group && HasMeasure(metrics, m, t) then v == Number(Total(metrics, m, group))
    else v == if orZero then Number(0) else Null
  }

  lemma ColumnIsFigure(metrics: MetricsTable, m: Measure, ts: seq<Trace>, orZero: bool)
    requires orZero == (m == InputTokens || m == OutputTokens || m == TotalTokens || m == CachedTokens)
    ensures FigureIs(SumColumn(metrics, m, ts), metrics, m, orZero, multiset(ts))
  {
    SumIsTotal(metrics, m, ts);
    SumIsNull(metrics, m, ts);
    assert forall t :: t in ts <==> t in multiset(ts);
    hide Total, HasMeasure, Sum;
  }

  // ---- A row ----------------------------------------------------------------------------------------

  ghost predicate BaseIs(base: BaseRow, group: multiset<Trace>) {
    && (exists t :: t in group && t.timestamp == base.createdAt)
    && (forall t :: t in group ==> base.createdAt <= t.timestamp)
    && base.countTraces == |group|
    && (exists t :: t in group && t.timestamp == base.createdAt + base.duration)
    && (forall t :: t in group ==> t.timestamp <= base.createdAt + base.duration)
    && (forall blob :: blob in base.tags <==> exists t :: t in group && t.tags == Some(blob))
    && (exists t :: t in group && t.environment == base.environment)
    && (forall t :: t in group ==> !TextLess(base.environment, t.environment))
  }

  ghost predicate MetricsAre(row: MetricRow, metrics: MetricsTable, group: multiset<Trace>) {
    && FigureIs(row.inputCost, metrics, InputCost, false, group)
    && FigureIs(row.outputCost, metrics, OutputCost, false, group)
    && FigureIs(row.totalCost, metrics, TotalCost, false, group)
    && FigureIs(row.inputTokens, metrics, InputTokens, true, group)
    && FigureIs(row.outputTokens, metrics, OutputTokens, true, group)
    && FigureIs(row.totalTokens, metrics, TotalTokens, true, group)
    && FigureIs(row.cachedTokens, metrics, CachedTokens, true, group)
  }

  ghost predicate UsersAre(users: Option<set<string>>, group: multiset<Trace>) {
    if exists t :: t in group && t.user.Some? && t.user.value != "" then
      users.Some? && forall u :: u in users.value <==> u != "" && exists t :: t in group && t.user == Some(u)
    else users == None
  }

  /** The row shows the session's matching traces, and there are some. */
  ghost predicate RowIs(row: ResultRow, metrics: MetricsTable, group: multiset<Trace>) {
    && group != multiset{} && BaseIs(row.base, group)
    && row.metrics.Some? && MetricsAre(row.metrics.value, metrics, group)
    && UsersAre(row.users, group)
  }

  lemma BaseOfIs(ts: seq<Trace>)
    requires ts != []
    ensures BaseIs(BaseOf(ts), multiset(ts))
  {
    MinTimeIsLeast(ts);
    MaxTimeIsGreatest(ts);
    MaxEnvironmentIsGreatest(ts);
    assert forall t :: t in ts <==> t in multiset(ts);
  }

  lemma MetricsOfAre(metrics: MetricsTable, ts: seq<Trace>)
    ensures MetricsAre(MetricsOf(metrics, ts), metrics, multiset(ts))
  {
    hide FigureIs, SumColumn;
    ColumnIsFigure(metrics, InputCost, ts, false);
    ColumnIsFigure(metrics, OutputCost, ts, false);
    ColumnIsFigure(metrics, TotalCost, ts, false);
    ColumnIsFigure(metrics, InputTokens, ts, true);
    ColumnIsFigure(metrics, OutputTokens, ts, true);
    ColumnIsFigure(metrics, TotalTokens, ts, true);
    ColumnIsFigure(metrics, CachedTokens, ts, true);
  }

  /** The group of a session, from the scan. */
  lemma GroupIsScanned(q: Query, traces: seq<Trace>, id: string, group: multiset<Trace>)
    requires IsGroup(q, traces, id, group) && id in SessionIds(Filtered(q, traces))
    ensures multiset(OfSession(id, Filtered(q, traces))) == group
    ensures OfSession(id, Filtered(q, traces)) != []
  {
    var t0 :| t0 in Filtered(q, traces) && t0.session == Some(id);
    SelectMembers(Matching(q), traces);
    assert Matches(q, t0);
    SelectMembers(InSession(id), Filtered(q, traces));
    assert t0 in OfSession(id, Filtered(q, traces));
    forall t: Trace ensures multiset(OfSession(id, Filtered(q, traces)))[t] == group[t] {
      SelectCounts(InSession(id), Filtered(q, traces), t);
      SelectCounts(Matching(q), traces, t);
    }
  }

  lemma UsersOfAre(ft: seq<Trace>, id: string, group: multiset<Trace>)
    requires multiset(OfSession(id, ft)) == group
    ensures UsersAre(if id in GroupUsers(ft) then Some(GroupUsers(ft)[id]) else None, group)
  {
    var mine := OfSession(id, ft);
    SelectMembers(InSession(id), ft);
    SelectMembers(HasUser, ft);
    assert forall t :: t in mine <==> t in group;
    assert id in SessionIds(Select(HasUser, ft)) <==> exists t :: t in mine && HasUser(t) by {
      if id in SessionIds(Select(HasUser, ft)) {
        var t :| t in Select(HasUser, ft) && t.session == Some(id);
        assert t in mine;
      }
      if t :| t in mine && HasUser(t) { assert t in Select(HasUser, ft); }
    }
  }

  /**
   Every row of a page shows the figures of exactly the matching traces of its session:
   first and last time, number, tags, environment, users, and the SUM of each measure.
   */
  lemma PageShowsTotals(q: Query, traces: seq<Trace>, rankScan: seq<Trace>, pageScan: seq<Trace>, metrics: MetricsTable,
                        limit: nat, offset: nat, i: nat, group: multiset<Trace>)
    requires multiset(rankScan) == multiset(traces) == multiset(pageScan)
    requires i < |PageFirstList(q, rankScan, pageScan, metrics, limit, offset)|
    requires IsGroup(q, traces, PageFirstList(q, rankScan, pageScan, metrics, limit, offset)[i].id, group)
    ensures RowIs(PageFirstList(q, rankScan, pageScan, metrics, limit, offset)[i], metrics, group)
  {
    PageFirstMatchesLegacy(q, traces, rankScan, pageScan, metrics, limit, offset);
    hide PageFirstList;
    LegacyShowsTotals(q, traces, metrics, limit, offset, i, group);
  }

  lemma LegacyRow(q: Query, traces: seq<Trace>, metrics: MetricsTable, limit: nat, offset: nat, i: nat)
    requires i < |LegacyList(q, traces, metrics, limit, offset)|
    ensures var ft, row := Filtered(q, traces), LegacyList(q, traces, metrics, limit, offset)[i];
            && row.id in SessionIds(ft) && row.id in GroupBase(ft)
            && row == Join(row.id, GroupBase(ft), GroupMetrics(metrics, ft), GroupUsers(ft))
  {
    hide BaseOf, MetricsOf, Ordered, OrderBy, GroupUsers, GroupMetrics, Filtered, OfSession;
    var ft := Filtered(q, traces);
    OrderedHasKeys(q, GroupBase(ft).Keys, GroupBase(ft), GroupMetrics(metrics, ft));
    var page := Page(AllSessions(q, traces, metrics), limit, offset);
    PageIs(AllSessions(q, traces, metrics), limit, offset);
    assert page[i] in GroupBase(ft);
  }

  lemma LegacyShowsTotals(q: Query, traces: seq<Trace>, metrics: MetricsTable, limit: nat, offset: nat, i: nat, group: multiset<Trace>)
    requires i < |LegacyList(q, traces, metrics, limit, offset)|
    requires IsGroup(q, traces, LegacyList(q, traces, metrics, limit, offset)[i].id, group)
    ensures RowIs(LegacyList(q, traces, metrics, limit, offset)[i], metrics, group)
  {
    hide LegacyList, RowIs, GroupBase, GroupMetrics, GroupUsers, IsGroup, OfSession, Filtered, SessionIds, Join;
    var id := LegacyList(q, traces, metrics, limit, offset)[i].id;
    LegacyRow(q, traces, metrics, limit, offset, i);
    GroupIsScanned(q, traces, id, group);
    RowOfGroup(Filtered(q, traces), metrics, id, group);
  }

  lemma RowOfGroup(ft: seq<Trace>, metrics: MetricsTable, id: string, group: multiset<Trace>)
    requires id in SessionIds(ft) && multiset(OfSession(id, ft)) == group && OfSession(id, ft) != []
    ensures RowIs(Join(id, GroupBase(ft), GroupMetrics(metrics, ft), GroupUsers(ft)), metrics, group)
  {
    var mine := OfSession(id, ft);
    assert mine[0] in group;
    BaseOfIs(mine);
    MetricsOfAre(metrics, mine);
    UsersOfAre(ft, id, group);
    hide BaseIs, MetricsAre, UsersAre, BaseOf, MetricsOf, OfSession, UsersOf;
  }

  // ---- The order of the rows --------------------------------------------------------------------------

  /** Of two rows: the number shown in the sort column, as `dir` asks, and ids ascending where it is the same. */
  predicate NumbersInOrder(dir: Direction, a: int, aId: string, b: int, bId: string) {
    if a == b then TextLess(aId, bId) else (dir == Asc <==> a < b)
  }

  /** NULL comes before every number when ascending, and after when descending. */
  predicate FiguresInOrder(dir: Direction, a: Value, aId: string, b: Value, bId: string) {
    match (a, b)
    case (Number(x), Number(y)) => NumbersInOrder(dir, x, aId, y, bId)
    case (Null, Null) => TextLess(aId, bId)
    case (Null, Number(_)) => dir == Asc
    case (Number(_), Null) => dir == Desc
    case _ => false
  }

  function FigureOf(row: MetricRow, m: Measure): Value {
    match m
    case InputCost => row.inputCost
    case OutputCost => row.outputCost
    case TotalCost => row.totalCost
    case InputTokens => row.inputTokens
    case OutputTokens => row.outputTokens
    case TotalTokens => row.totalTokens
    case CachedTokens => row.cachedTokens
  }

  /** Two rows of a page by the column that was asked for. */
  predicate RowsInOrder(q: Query, a: ResultRow, b: ResultRow) {
    match q.sortKey
    case SessionId => a.id != b.id && (q.dir == Asc <==> TextLess(a.id, b.id))
    case CreatedAt => NumbersInOrder(q.dir, a.base.createdAt, a.id, b.base.createdAt, b.id)
    case CountTraces => NumbersInOrder(q.dir, a.base.countTraces, a.id, b.base.countTraces, b.id)
    case SessionDuration => NumbersInOrder(q.dir, a.base.duration, a.id, b.base.duration, b.id)
    case Metric(m) =>
      a.metrics.Some? && b.metrics.Some? && FiguresInOrder(q.dir, FigureOf(a.metrics.value, m), a.id, FigureOf(b.metrics.value, m), b.id)
  }

  lemma RowBeforeIsInOrder(q: Query, a: ResultRow, b: ResultRow)
    requires RowBefore(q, a, b) && a.id != b.id
    requires a.metrics.Some? && b.metrics.Some? && NoText(a.metrics.value) && NoText(b.metrics.value)
    ensures RowsInOrder(q, a, b)
  {
    TextLessIrreflexive(a.id);
    if TextLess(a.id, b.id) && TextLess(b.id, a.id) { TextLessTransitive(a.id, b.id, a.id); }
  }

  predicate NoText(row: MetricRow) {
    forall m: Measure :: !FigureOf(row, m).Text?
  }

  lemma FiguresAreNoText(row: MetricRow, metrics: MetricsTable, group: multiset<Trace>)
    requires MetricsAre(row, metrics, group)
    ensures NoText(row)
  {
  }

  /** Rows of a page are in the order that was asked for, whichever the column. */
  lemma PageIsSorted(q: Query, traces: seq<Trace>, rankScan: seq<Trace>, pageScan: seq<Trace>, metrics: MetricsTable,
                     limit: nat, offset: nat, i: nat, j: nat)
    requires multiset(rankScan) == multiset(traces) == multiset(pageScan)
    requires i < j < |PageFirstList(q, rankScan, pageScan, metrics, limit, offset)|
    ensures RowsInOrder(q, PageFirstList(q, rankScan, pageScan, metrics, limit, offset)[i],
                        PageFirstList(q, rankScan, pageScan, metrics, limit, offset)[j])
  {
    var rows := PageFirstList(q, rankScan, pageScan, metrics, limit, offset);
    PageIsInOrder(q, traces, rankScan, pageScan, metrics, limit, offset);
    var a := SomeGroup(q, traces, rows[i].id);
    var b := SomeGroup(q, traces, rows[j].id);
    PageShowsTotals(q, traces, rankScan, pageScan, metrics, limit, offset, i, a);
    PageShowsTotals(q, traces, rankScan, pageScan, metrics, limit, offset, j, b);
    FiguresAreNoText(rows[i].metrics.value, metrics, a);
    FiguresAreNoText(rows[j].metrics.value, metrics, b);
    PageHasEachOnce(q, traces, rankScan, pageScan, metrics, limit, offset, i, j);
    assert RowBefore(q, rows[i], rows[j]);
    hide PageFirstList, RowBefore, RowsInOrder, NoText, IsGroup, MetricsAre;
    RowBeforeIsInOrder(q, rows[i], rows[j]);
  }

  lemma SomeGroup(q: Query, traces: seq<Trace>, id: string) returns (group: multiset<Trace>)
    ensures IsGroup(q, traces, id, group)
  {
    group := multiset(Select((t: Trace) => Belongs(q, t, id), traces));
    forall t: Trace ensures group[t] == if Belongs(q, t, id) then multiset(traces)[t] else 0 {
      SelectCounts((t: Trace) => Belongs(q, t, id), traces, t);
    }
  }

  lemma PageHasEachOnce(q: Query, traces: seq<Trace>, rankScan: seq<Trace>, pageScan: seq<Trace>, metrics: MetricsTable,
                        limit: nat, offset: nat, i: nat, j: nat)
    requires multiset(rankScan) == multiset(traces) == multiset(pageScan)
    requires i < j < |PageFirstList(q, rankScan, pageScan, metrics, limit, offset)|
    ensures PageFirstList(q, rankScan, pageScan, metrics, limit, offset)[i].id
         != PageFirstList(q, rankScan, pageScan, metrics, limit, offset)[j].id
  {
    PageFirstMatchesLegacy(q, traces, rankScan, pageScan, metrics, limit, offset);
    hide PageFirstList;
    var all := AllSessions(q, traces, metrics);
    AllSessionsOnce(q, traces, metrics);
    PageIs(all, limit, offset);
    var page := Page(all, limit, offset);
    assert page[i] == all[offset + i] && page[j] == all[offset + j];
    hide AllSessions;
  }

  /** The sessions of a page: those that come at these places of the whole list, each of which has a matching trace. */
  lemma PageSessions(q: Query, traces: seq<Trace>, rankScan: seq<Trace>, pageScan: seq<Trace>, metrics: MetricsTable,
                     limit: nat, offset: nat)
    requires multiset(rankScan) == multiset(traces) == multiset(pageScan)
    ensures var all, rows := AllSessions(q, traces, metrics), PageFirstList(q, rankScan, pageScan, metrics, limit, offset);
            && |rows| == (if offset >= |all| then 0 else if offset + limit <= |all| then limit else |all| - offset)
            && (forall i :: 0 <= i < |rows| ==> rows[i].id == all[offset + i])
            && (forall id :: id in all <==> exists t :: t in traces && Belongs(q, t, id))
  {
    hide PageFirstList, AllSessions, Page, Belongs, Matches;
    PageRowIds(q, traces, rankScan, pageScan, metrics, limit, offset);
    AllSessionsOnce(q, traces, metrics);
    PageIs(AllSessions(q, traces, metrics), limit, offset);
    forall id: string ensures id in AllSessions(q, traces, metrics) <==> exists t :: t in traces && Belongs(q, t, id) {
      BelongsIsMatch(q, traces, id);
    }
    var rows := PageFirstList(q, rankScan, pageScan, metrics, limit, offset);
    assert forall i :: 0 <= i < |rows| ==> RowIds(rows)[i] == rows[i].id;
  }

  lemma BelongsIsMatch(q: Query, traces: seq<Trace>, id: string)
    ensures (exists t :: t in traces && Matches(q, t) && t.session == Some(id)) <==> exists t :: t in traces && Belongs(q, t, id)
  {
  }
}
