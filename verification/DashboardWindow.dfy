/**
 How the dashboard splits a window into materialized whole days and live edge
 ranges, and what it then reads. Timestamps are integer milliseconds, days are
 numbered from the epoch.
 */
module DashboardWindow {
  import opened Options

  const DAY := 86_400_000

  function Day(t: int): int { t / DAY }

  function DayStart(day: int): int { day * DAY }

  function DayEnd(day: int): int { DayStart(day + 1) }

  /** Both bounds inclusive; either may be open. */
  datatype Window = Window(from: Option<int>, upTo: Option<int>)

  datatype Edge = Edge(start: int, toExclusive: Option<int>, day: int)

  datatype Parts = Parts(matFromDay: Option<int>, matToDay: Option<int>, edges: seq<Edge>)

  predicate InWindow(w: Window, t: int) {
    (w.from.Some? ==> w.from.value <= t) && (w.upTo.Some? ==> t <= w.upTo.value)
  }

  predicate InEdge(e: Edge, t: int) {
    e.start <= t && (e.toExclusive.Some? ==> t < e.toExclusive.value)
  }

  /** Whether the materialized days are loaded at all: two open bounds mean "none" unless the window is open too. */
  predicate LoadsDays(w: Window, p: Parts) {
    p.matFromDay.Some? || p.matToDay.Some? || (w.from.None? && w.upTo.None?)
  }

  predicate InDays(w: Window, p: Parts, t: int) {
    && LoadsDays(w, p)
    && (p.matFromDay.Some? ==> p.matFromDay.value <= Day(t))
    && (p.matToDay.Some? ==> Day(t) <= p.matToDay.value)
  }

  function EdgesWith(edges: seq<Edge>, t: int): nat {
    if edges == [] then 0 else (if InEdge(edges[0], t) then 1 else 0) + EdgesWith(edges[1..], t)
  }

  /** How many of the parts a timestamp is read through. */
  function TimesRead(w: Window, p: Parts, t: int): nat {
    EdgesWith(p.edges, t) + if InDays(w, p, t) then 1 else 0
  }

  /** The parts are disjoint and together exactly the window. */
  ghost predicate Tiles(w: Window, p: Parts) {
    forall t :: TimesRead(w, p, t) == if InWindow(w, t) then 1 else 0
  }

  /** A bounded edge lies in the day its figures are filed under. */
  ghost predicate InOneDay(e: Edge) {
    Day(e.start) == e.day && (e.toExclusive.Some? ==> forall t :: InEdge(e, t) ==> Day(t) == e.day)
  }

  /** A window that ends before it begins, on another day, with a bound inside a day. */
  predicate CrossesDays(w: Window) {
    && w.from.Some? && w.upTo.Some?
    && w.upTo.value + 1 < w.from.value
    && Day(w.upTo.value + 1) != Day(w.from.value)
    && (w.from.value != DayStart(Day(w.from.value)) || w.upTo.value + 1 != DayStart(Day(w.upTo.value + 1)))
  }

  /** A day is later than another exactly when it starts after the other has ended. */
  lemma DayIs(t: int, day: int)
    ensures Day(t) <= day <==> t < DayEnd(day)
    ensures day <= Day(t) <==> DayStart(day) <= t
  {
  }

  /** `collapseEdges` */
  function Collapse(edges: seq<Edge>): seq<Edge> {
    if edges == [] then []
    else (if edges[0].toExclusive.Some? && edges[0].toExclusive.value <= edges[0].start then [] else [edges[0]]) + Collapse(edges[1..])
  }

  lemma {:induction false} CollapseReads(edges: seq<Edge>, t: int)
    ensures EdgesWith(Collapse(edges), t) == EdgesWith(edges, t)
  {
    if edges != [] {
      CollapseReads(edges[1..], t);
      assert [] + Collapse(edges[1..]) == Collapse(edges[1..]);
      assert ([edges[0]] + Collapse(edges[1..]))[1..] == Collapse(edges[1..]);
    }
  }

  lemma {:induction false} CollapseKeeps(edges: seq<Edge>)
    ensures |Collapse(edges)| <= |edges|
    ensures forall e :: e in Collapse(edges) ==> e in edges
    ensures |edges| == 2 && |Collapse(edges)| == 2 ==> Collapse(edges) == edges
  {
    if edges != [] {
      CollapseKeeps(edges[1..]);
      if |edges| == 2 {
        assert edges == [edges[0], edges[1]];
        assert edges[1..] == [edges[1]];
        assert Collapse(edges[1..])
            == if edges[1].toExclusive.Some? && edges[1].toExclusive.value <= edges[1].start then [] else [edges[1]] by {
          assert edges[1..][1..] == [];
        }
      }
    }
  }

  /** The part of the first day after `from`. */
  function Lead(from: int): Edge { Edge(from, Some(DayEnd(Day(from))), Day(from)) }

  /** The part of the last day before `toExclusive`. */
  function Trail(toExclusive: int): Edge { Edge(DayStart(Day(toExclusive)), Some(toExclusive), Day(toExclusive)) }

  lemma EdgesOfOne(a: Edge, t: int)
    ensures EdgesWith([a], t) == if InEdge(a, t) then 1 else 0
  {
    assert [a][1..] == [];
  }

  lemma EdgesOfTwo(a: Edge, b: Edge, t: int)
    ensures EdgesWith([a, b], t) == (if InEdge(a, t) then 1 else 0) + if InEdge(b, t) then 1 else 0
  {
    assert [a, b][1..] == [b];
    EdgesOfOne(b, t);
  }

  /** The one edge of a window that begins inside a day and ends in it. */
  function Merged(from: int, end: int): Edge {
    Edge(from, Some(if end <= from then from else end), Day(from))
  }

  /** The edges pushed for a window, before empty ones are dropped. */
  function Pushed(w: Window): seq<Edge> {
    var lead := if w.from.Some? && w.from.value > DayStart(Day(w.from.value)) then [Lead(w.from.value)] else [];
    var trail := if w.upTo.Some? then [Trail(w.upTo.value + 1)] else [];
    if lead != [] && trail != [] && lead[0].day == trail[0].day
    then [Merged(w.from.value, w.upTo.value + 1)]
    else lead + trail
  }

  /** The materialized days of a window: from the first whole day to the one before the last day touched. */
  function Bounds(w: Window): (Option<int>, Option<int>) {
    var first := if w.from.None? then None
                 else if w.from.value > DayStart(Day(w.from.value)) then Some(Day(w.from.value) + 1) else Some(Day(w.from.value));
    var last := if w.upTo.None? then None else Some(Day(w.upTo.value + 1) - 1);
    if first.Some? && last.Some? && first.value > last.value then (None, None) else (first, last)
  }

  function Split(w: Window): Parts {
    Parts(Bounds(w).0, Bounds(w).1, Collapse(Pushed(w)))
  }

  /** What the pushed edges cover, before anything is said about days. */
  lemma PushedCovers(w: Window, t: int)
    ensures w.from.None? ==> EdgesWith(Pushed(w), t) == if w.upTo.Some? && InEdge(Trail(w.upTo.value + 1), t) then 1 else 0
    ensures w.from.Some? && w.upTo.None? ==>
              EdgesWith(Pushed(w), t) == if DayStart(Day(w.from.value)) < w.from.value && InEdge(Lead(w.from.value), t) then 1 else 0
    ensures w.from.Some? && w.upTo.Some? ==>
              EdgesWith(Pushed(w), t) == BothCover(w.from.value, w.upTo.value + 1, t)
  {
    if w.from.Some? { EdgesOfOne(Lead(w.from.value), t); }
    if w.upTo.Some? { EdgesOfOne(Trail(w.upTo.value + 1), t); }
    if w.from.Some? && w.upTo.Some? {
      EdgesOfTwo(Lead(w.from.value), Trail(w.upTo.value + 1), t);
      assert [Lead(w.from.value)] + [Trail(w.upTo.value + 1)] == [Lead(w.from.value), Trail(w.upTo.value + 1)];
      EdgesOfOne(Merged(w.from.value, w.upTo.value + 1), t);
    }
  }

  function BothCover(from: int, end: int, t: int): nat {
    var trail := if InEdge(Trail(end), t) then 1 else 0;
    if from <= DayStart(Day(from)) then trail
    else if Day(from) == Day(end) then (if InEdge(Merged(from, end), t) then 1 else 0)
    else (if InEdge(Lead(from), t) then 1 else 0) + trail
  }

  /** Read by read: what the parts of a split contribute at one timestamp. */
  lemma SplitReads(w: Window, t: int)
    ensures !CrossesDays(w) ==> TimesRead(w, Split(w), t) == if InWindow(w, t) then 1 else 0
    ensures CrossesDays(w) && w.from.value != DayStart(Day(w.from.value)) && t == w.from.value ==> TimesRead(w, Split(w), t) >= 1
    ensures CrossesDays(w) && w.from.value == DayStart(Day(w.from.value)) && t == DayStart(Day(w.upTo.value + 1)) ==>
              TimesRead(w, Split(w), t) >= 1
  {
    hide Pushed, EdgesWith, Collapse;
    CollapseReads(Pushed(w), t);
    PushedCovers(w, t);
  }

  lemma SplitTiles(w: Window)
    ensures Tiles(w, Split(w)) <==> !CrossesDays(w)
  {
    forall t ensures !CrossesDays(w) ==> TimesRead(w, Split(w), t) == if InWindow(w, t) then 1 else 0 {
      SplitReads(w, t);
    }
    if CrossesDays(w) {
      var t := if w.from.value != DayStart(Day(w.from.value)) then w.from.value else DayStart(Day(w.upTo.value + 1));
      SplitReads(w, t);
      assert !InWindow(w, t);
    }
  }

  lemma SplitEdges(w: Window)
    ensures |Split(w).edges| <= 2
    ensures |Split(w).edges| == 2 ==> Split(w).edges[0].day != Split(w).edges[1].day
    ensures forall e :: e in Split(w).edges ==> InOneDay(e) && e.toExclusive.Some?
    ensures w.from.None? && w.upTo.None? ==> Split(w).edges == []
  {
    CollapseKeeps(Pushed(w));
    forall e | e in Pushed(w) ensures InOneDay(e) && e.toExclusive.Some? {
    }
  }

  /** `splitWindow` */
  method SplitWindow(w: Window) returns (p: Parts)
    ensures |p.edges| <= 2
    ensures |p.edges| == 2 ==> p.edges[0].day != p.edges[1].day
    ensures forall e :: e in p.edges ==> InOneDay(e) && e.toExclusive.Some?
    ensures Tiles(w, p) <==> !CrossesDays(w)
    ensures w.from.None? && w.upTo.None? ==> p == Parts(None, None, [])
  {
    hide EdgesWith, Collapse, Tiles;
    var toExclusive := if w.upTo.Some? then Some(w.upTo.value + 1) else None;
    var fromDay := if w.from.Some? then Some(Day(w.from.value)) else None;
    var toDay := if toExclusive.Some? then Some(Day(toExclusive.value)) else None;

    var edges: seq<Edge> := [];
    var matFromDay := fromDay;
    var matToDay := toDay;

    if w.from.Some? && w.from.value > DayStart(fromDay.value) {
      edges := edges + [Edge(w.from.value, Some(DayEnd(fromDay.value)), fromDay.value)];
      matFromDay := Some(fromDay.value + 1);
    }
    if toExclusive.Some? && toExclusive.value < DayEnd(toDay.value) {
      edges := edges + [Edge(DayStart(toDay.value), toExclusive, toDay.value)];
      matToDay := Some(toDay.value - 1);
    }
    if |edges| == 2 && edges[0].day == edges[1].day {
      edges := [Edge(edges[0].start, edges[1].toExclusive, edges[0].day)];
    }
    edges := LiftEnds(edges);
    assert edges == Pushed(w);
    if matFromDay.Some? && matToDay.Some? && matFromDay.value > matToDay.value {
      matFromDay, matToDay := None, None;
    }
    p := Parts(matFromDay, matToDay, Collapse(edges));
    assert p == Split(w);
    SplitTiles(w);
    SplitEdges(w);
  }

  function Lifted(e: Edge): Edge {
    if e.toExclusive.Some? && e.toExclusive.value <= e.start then e.(toExclusive := Some(e.start)) else e
  }

  /** No edge ends before it begins. */
  method LiftEnds(edges: seq<Edge>) returns (lifted: seq<Edge>)
    ensures |lifted| == |edges| && forall i :: 0 <= i < |edges| ==> lifted[i] == Lifted(edges[i])
  {
    lifted := edges;
    for i := 0 to |edges|
      invariant |lifted| == |edges|
      invariant forall k :: 0 <= k < |edges| ==> lifted[k] == if k < i then Lifted(edges[k]) else edges[k]
    {
      if lifted[i].toExclusive.Some? && lifted[i].toExclusive.value <= lifted[i].start {
        lifted := lifted[i := lifted[i].(toExclusive := Some(lifted[i].start))];
      }
    }
  }

  // ---- What buildDashboard reads --------------------------------------------------------------

  /**
   The parts `buildDashboard` reads. A window open on both sides has today added
   as a live edge without an end, and the materialized days stop at yesterday.
   */
  method PlanReads(w: Window, today: int) returns (p: Parts)
    ensures Tiles(w, p) <==> !CrossesDays(w)
    ensures forall e :: e in p.edges ==> InOneDay(e)
    ensures forall i, j :: 0 <= i < j < |p.edges| ==> p.edges[i].day != p.edges[j].day
    ensures w.from.None? && w.upTo.None? ==>
              forall t :: InDays(w, p, t) <==> Day(t) < today
  {
    p := SplitWindow(w);
    if w.from.None? && w.upTo.None? {
      var edge := Edge(DayStart(today), None, today);
      var matToDay := p.matToDay;
      // An open window has no last materialized day, so the source's other test never decides.
      if matToDay.None? { matToDay := Some(today - 1); }
      p := Parts(p.matFromDay, matToDay, p.edges + [edge]);
      assert p == Parts(None, Some(today - 1), [edge]);
      forall t ensures TimesRead(w, p, t) == 1 {
        EdgesOfOne(edge, t);
        DayIs(t, today - 1);
      }
    }
  }

  // ---- Nothing counted twice, nothing lost ------------------------------------------------------

  datatype Row = Row(time: int, value: int)

  function SumWhere(rows: seq<Row>, keep: int -> bool): int {
    if rows == [] then 0 else (if keep(rows[0].time) then rows[0].value else 0) + SumWhere(rows[1..], keep)
  }

  function SumEdges(rows: seq<Row>, edges: seq<Edge>): int {
    if edges == [] then 0 else SumWhere(rows, (t: int) => InEdge(edges[0], t)) + SumEdges(rows, edges[1..])
  }

  /** A figure of the dashboard: the materialized days' sums and the edges' sums added up. */
  function Figure(w: Window, p: Parts, rows: seq<Row>): int {
    SumWhere(rows, (t: int) => InDays(w, p, t)) + SumEdges(rows, p.edges)
  }

  lemma {:induction false} SumEdgesByRow(rows: seq<Row>, edges: seq<Edge>)
    requires rows != []
    ensures SumEdges(rows, edges) == rows[0].value * EdgesWith(edges, rows[0].time) + SumEdges(rows[1..], edges)
    decreases |edges|
  {
    if edges != [] { SumEdgesByRow(rows, edges[1..]); }
  }

  lemma {:induction false} NoRowsNoSum(edges: seq<Edge>)
    ensures SumEdges([], edges) == 0
  {
    if edges != [] { NoRowsNoSum(edges[1..]); }
  }

  /** For parts that tile the window every figure is the sum over exactly the window's rows. */
  lemma {:induction false} FigureIsWindowSum(w: Window, p: Parts, rows: seq<Row>)
    requires Tiles(w, p)
    ensures Figure(w, p, rows) == SumWhere(rows, (t: int) => InWindow(w, t))
  {
    if rows == [] {
      NoRowsNoSum(p.edges);
    } else {
      SumEdgesByRow(rows, p.edges);
      FigureIsWindowSum(w, p, rows[1..]);
      assert TimesRead(w, p, rows[0].time) == if InWindow(w, rows[0].time) then 1 else 0;
    }
  }
}
