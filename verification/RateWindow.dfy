/**
 The in-memory request counter behind the per-key rate limits. Its windows are
 fixed ones that open at the first call after the previous window has run out.
 */
module RateWindow {

  datatype Entry = Entry(start: int, count: int)

  type Windows = map<string, Entry>

  const MAX_WINDOW := 120_000

  /** Whether the key has a window that has not run out. */
  predicate Live(ws: Windows, key: string, windowMs: int, now: int) {
    key in ws && now - ws[key].start < windowMs
  }

  predicate Admits(ws: Windows, key: string, limit: int, windowMs: int, now: int) {
    Live(ws, key, windowMs, now) ==> ws[key].count < limit
  }

  function Added(ws: Windows, key: string, amount: int, windowMs: int, now: int): Windows {
    if Live(ws, key, windowMs, now) then ws[key := Entry(ws[key].start, ws[key].count + amount)]
    else ws[key := Entry(now, amount)]
  }

  function Checked(ws: Windows, key: string, limit: int, windowMs: int, now: int): Windows {
    if Admits(ws, key, limit, windowMs, now) then Added(ws, key, 1, windowMs, now) else ws
  }

  function Cleaned(ws: Windows, now: int): Windows {
    map key | key in ws && now - ws[key].start <= MAX_WINDOW :: ws[key]
  }

  function Remaining(ws: Windows, key: string, limit: int, windowMs: int, now: int): int {
    if !Live(ws, key, windowMs, now) then limit
    else if limit - ws[key].count > 0 then limit - ws[key].count else 0
  }

  function ResetTime(ws: Windows, key: string, windowMs: int, now: int): int {
    if key in ws then ws[key].start + windowMs else now + windowMs
  }

  class Counter {
    var windows: Windows

    constructor ()
      ensures windows == map[]
    {
      windows := map[];
    }

    /** `checkAndIncrement`; `now` is what the clock shows. */
    method CheckAndIncrement(key: string, limit: int, windowMs: int, now: int) returns (admitted: bool)
      modifies this
      ensures admitted == Admits(old(windows), key, limit, windowMs, now)
      ensures windows == Checked(old(windows), key, limit, windowMs, now)
    {
      if key !in windows || now - windows[key].start >= windowMs {
        windows := windows[key := Entry(now, 1)];
        return true;
      }
      if windows[key].count >= limit {
        return false;
      }
      windows := windows[key := Entry(windows[key].start, windows[key].count + 1)];
      return true;
    }

    /** `incrementBy` */
    method IncrementBy(key: string, amount: int, windowMs: int, now: int)
      modifies this
      ensures windows == Added(old(windows), key, amount, windowMs, now)
    {
      if key !in windows || now - windows[key].start >= windowMs {
        windows := windows[key := Entry(now, amount)];
      } else {
        windows := windows[key := Entry(windows[key].start, windows[key].count + amount)];
      }
    }

    /** `cleanup`, which the timer calls. */
    method Cleanup(now: int)
      modifies this
      ensures windows == Cleaned(old(windows), now)
    {
      var left := windows.Keys;
      while left != {}
        invariant left <= windows.Keys <= old(windows).Keys
        invariant forall key :: key in windows ==> windows[key] == old(windows)[key]
        invariant forall key :: key in old(windows) && key !in left ==>
                    (key in windows <==> now - old(windows)[key].start <= MAX_WINDOW)
        decreases |left|
      {
        var key :| key in left;
        left := left - {key};
        if now - windows[key].start > MAX_WINDOW {
          windows := windows - {key};
        }
      }
    }
  }

  // ---- What the two queries promise --------------------------------------------------

  /** `k` calls at one moment. */
  function CheckedTimes(ws: Windows, key: string, limit: int, windowMs: int, now: int, k: nat): Windows {
    if k == 0 then ws else Checked(CheckedTimes(ws, key, limit, windowMs, now, k - 1), key, limit, windowMs, now)
  }

  /** `getRemaining` is the number of calls that would be admitted right now. */
  lemma {:induction false} RemainingIsHowMany(ws: Windows, key: string, limit: int, windowMs: int, now: int, k: nat)
    requires limit >= 1 && windowMs >= 1
    ensures Admits(CheckedTimes(ws, key, limit, windowMs, now, k), key, limit, windowMs, now)
       <==> k < Remaining(ws, key, limit, windowMs, now)
    ensures Remaining(CheckedTimes(ws, key, limit, windowMs, now, k), key, limit, windowMs, now)
         == if k <= Remaining(ws, key, limit, windowMs, now) then Remaining(ws, key, limit, windowMs, now) - k else 0
    decreases k
  {
    if k > 0 { RemainingIsHowMany(ws, key, limit, windowMs, now, k - 1); }
  }

  /** `getResetTime` is the moment from which a refused key is admitted again. */
  lemma ResetTimeIsWhen(ws: Windows, key: string, limit: int, windowMs: int, now: int, later: int)
    requires !Admits(ws, key, limit, windowMs, now) && now <= later
    ensures Admits(ws, key, limit, windowMs, later) <==> ResetTime(ws, key, windowMs, now) <= later
  {
  }

  /** It is the end of the window that a call now is counted in, unless the key's last window has run out unnoticed. */
  lemma ResetTimeIsEndIff(ws: Windows, key: string, windowMs: int, now: int)
    requires windowMs >= 1
    ensures ResetTime(ws, key, windowMs, now) == Added(ws, key, 1, windowMs, now)[key].start + windowMs
       <==> key !in ws || Live(ws, key, windowMs, now)
    ensures key in ws && !Live(ws, key, windowMs, now) ==> ResetTime(ws, key, windowMs, now) <= now
  {
  }

  // ---- Runs ---------------------------------------------------------------------------

  /** Calls of `checkAndIncrement` and `incrementBy`, and turns of the cleanup timer. */
  datatype Event = Check(key: string, at: int) | Add(key: string, amount: nat, at: int) | Clean(at: int)

  /** The clock never runs backwards. */
  predicate InTimeOrder(events: seq<Event>) {
    forall i, j :: 0 <= i < j < |events| ==> events[i].at <= events[j].at
  }

  function After(events: seq<Event>, limit: int, windowMs: int): Windows {
    if events == [] then map[]
    else
      var ws := After(events[..|events| - 1], limit, windowMs);
      match events[|events| - 1]
      case Check(key, at) => Checked(ws, key, limit, windowMs, at)
      case Add(key, amount, at) => Added(ws, key, amount, windowMs, at)
      case Clean(at) => Cleaned(ws, at)
  }

  /** An admitted call, with the start of the window it was counted in. */
  datatype Admit = Admit(at: int, start: int)

  /** The admitted calls of a key. */
  function Log(events: seq<Event>, key: string, limit: int, windowMs: int): seq<Admit> {
    if events == [] then []
    else
      var init, last := events[..|events| - 1], events[|events| - 1];
      var ws := After(init, limit, windowMs);
      Log(init, key, limit, windowMs)
        + if last.Check? && last.key == key && Admits(ws, key, limit, windowMs, last.at)
          then [Admit(last.at, if Live(ws, key, windowMs, last.at) then ws[key].start else last.at)] else []
  }

  /** A first call is admitted whatever the limit. */
  function Cap(limit: int): nat { if limit >= 1 then limit else 1 }

  /** Two calls in order: the same window, or windows at least `width` apart, the second opened after the first call. */
  predicate Apart(a: Admit, b: Admit, width: int) {
    a.at <= b.at && b.start <= b.at && (a.start == b.start || (a.start + width <= b.start && a.at <= b.start))
  }

  predicate Windowed(log: seq<Admit>, cap: nat, width: int) {
    && (forall i, j :: 0 <= i < j < |log| ==> Apart(log[i], log[j], width))
    && (forall i :: 0 <= i < |log| ==> log[i].start <= log[i].at)
    && (forall i, j :: 0 <= i < |log| && j == i + cap < |log| ==> log[i].start != log[j].start)
  }

  /** How the stored entry of a key relates to its log at a moment. */
  predicate Tracks(ws: Windows, key: string, log: seq<Admit>, width: int, now: int) {
    && (forall i :: 0 <= i < |log| ==> log[i].at <= now)
    && (key in ws ==> ws[key].start <= now && ws[key].count >= 0)
    && (key in ws ==> forall i :: 0 <= i < |log| ==>
          log[i].start == ws[key].start || (log[i].start + width <= ws[key].start && log[i].at <= ws[key].start))
    && (key in ws ==> forall i :: 0 <= i < |log| - ws[key].count ==> log[i].start != ws[key].start)
    && (key !in ws ==> forall i :: 0 <= i < |log| ==> log[i].start + width <= now)
  }

  function Last(events: seq<Event>): int
    requires events != []
  {
    events[|events| - 1].at
  }

  lemma CheckTracks(ws: Windows, key: string, log: seq<Admit>, limit: int, windowMs: int, width: int, before: int, now: int)
    requires Windowed(log, Cap(limit), width) && Tracks(ws, key, log, width, before) && before <= now
    requires 1 <= width <= windowMs && Admits(ws, key, limit, windowMs, now)
    ensures var admit := Admit(now, if Live(ws, key, windowMs, now) then ws[key].start else now);
            && Windowed(log + [admit], Cap(limit), width)
            && Tracks(Added(ws, key, 1, windowMs, now), key, log + [admit], width, now)
  {
    var admit := Admit(now, if Live(ws, key, windowMs, now) then ws[key].start else now);
    var log' := log + [admit];
    forall i | 0 <= i < |log| ensures Apart(log[i], admit, width) {
    }
    if |log| - Cap(limit) >= 0 {
      assert log[|log| - Cap(limit)].start != admit.start;
    }
  }

  lemma OtherTracks(ws: Windows, ws': Windows, key: string, log: seq<Admit>, windowMs: int, width: int,
                    before: int, now: int)
    requires 1 <= width <= windowMs && Tracks(ws, key, log, width, before) && before <= now
    requires (key in ws && key in ws' && ws'[key] == ws[key])
          || (key !in ws && key !in ws')
          || (key in ws && key !in ws' && now - ws[key].start >= width)
          || (key in ws' && exists amount: nat :: ws' == Added(ws, key, amount, windowMs, now))
    ensures Tracks(ws', key, log, width, now)
  {
  }

  predicate NeverCleans(events: seq<Event>) {
    forall i :: 0 <= i < |events| ==> !events[i].Clean?
  }

  /** A stretch of time that no window falls short of: the cleanup can cut long windows down to 120001 ms. */
  predicate Respected(events: seq<Event>, windowMs: int, width: int) {
    width <= windowMs && (width <= MAX_WINDOW + 1 || NeverCleans(events))
  }

  /** What holds of every key after every run. */
  lemma {:induction false} RunTracks(events: seq<Event>, key: string, limit: int, windowMs: int, width: int)
    requires InTimeOrder(events) && 1 <= width && Respected(events, windowMs, width)
    ensures Windowed(Log(events, key, limit, windowMs), Cap(limit), width)
    ensures events != [] ==> Tracks(After(events, limit, windowMs), key, Log(events, key, limit, windowMs), width, Last(events))
    ensures events == [] ==> Log(events, key, limit, windowMs) == []
  {
    if events != [] {
      hide Windowed, Tracks;
      var init, last := events[..|events| - 1], events[|events| - 1];
      RunTracks(init, key, limit, windowMs, width);
      var ws, log := After(init, limit, windowMs), Log(init, key, limit, windowMs);
      var before := if init == [] then last.at else Last(init);
      if init == [] { EmptyTracks(key, width, before); }
      assert log + [] == log;
      if last.Check? && last.key == key && Admits(ws, key, limit, windowMs, last.at) {
        CheckTracks(ws, key, log, limit, windowMs, width, before, last.at);
      } else {
        OtherTracks(ws, After(events, limit, windowMs), key, log, windowMs, width, before, last.at);
      }
    } else {
      EmptyTracks(key, width, 0);
    }
  }

  lemma EmptyTracks(key: string, width: int, now: int)
    ensures Tracks(map[], key, [], width, now) && forall cap: nat :: Windowed([], cap, width)
  {
  }

  // ---- What a window has counted ------------------------------------------------------------

  /** What an event adds to the count of a key: an admitted call one, `incrementBy` its amount. */
  function Amount(ws: Windows, e: Event, key: string, limit: int, windowMs: int): nat {
    match e
    case Check(k, at) => if k == key && Admits(ws, key, limit, windowMs, at) then 1 else 0
    case Add(k, amount, _) => if k == key then amount else 0
    case Clean(_) => 0
  }

  /** The sum of it from one event of the run on. */
  function Spent(events: seq<Event>, first: nat, key: string, limit: int, windowMs: int): nat {
    if |events| <= first then 0
    else
      var init := events[..|events| - 1];
      Spent(init, first, key, limit, windowMs) + Amount(After(init, limit, windowMs), events[|events| - 1], key, limit, windowMs)
  }

  /** The event opens a window for the key: it is a call, or an `incrementBy`, when none is live. */
  predicate Opens(events: seq<Event>, i: nat, key: string, limit: int, windowMs: int) {
    i < |events| && !events[i].Clean? && events[i].key == key && !Live(After(events[..i], limit, windowMs), key, windowMs, events[i].at)
  }

  /**
   A key's window starts with the event that opened it, no later event opened another,
   and its count is all that has been spent since.
   */
  lemma {:induction false} CountIsSpent(events: seq<Event>, key: string, limit: int, windowMs: int) returns (first: nat)
    requires key in After(events, limit, windowMs)
    ensures Opens(events, first, key, limit, windowMs)
    ensures forall i :: first < i < |events| ==> !Opens(events, i, key, limit, windowMs)
    ensures After(events, limit, windowMs)[key] == Entry(events[first].at, Spent(events, first, key, limit, windowMs))
  {
    var init, last := events[..|events| - 1], events[|events| - 1];
    var ws := After(init, limit, windowMs);
    if !last.Clean? && last.key == key && !Live(ws, key, windowMs, last.at) {
      first := |events| - 1;
      assert events[..first] == init;
      NothingSpent(init, key, limit, windowMs);
    } else {
      first := CountIsSpent(init, key, limit, windowMs);
      forall i | first <= i < |init| ensures Opens(events, i, key, limit, windowMs) == Opens(init, i, key, limit, windowMs) {
        assert events[..i] == init[..i];
      }
      assert events[..|init|] == init;
    }
  }

  lemma NothingSpent(events: seq<Event>, key: string, limit: int, windowMs: int)
    ensures Spent(events, |events|, key, limit, windowMs) == 0
  {
  }

  /** A call is admitted exactly if no window is live or less than the limit has been spent in it. */
  lemma AdmittedIff(events: seq<Event>, key: string, limit: int, windowMs: int, now: int)
    ensures Admits(After(events, limit, windowMs), key, limit, windowMs, now)
       <==> key !in After(events, limit, windowMs)
            || exists first: nat :: LastOpening(events, first, key, limit, windowMs)
                 && (now - events[first].at >= windowMs || Spent(events, first, key, limit, windowMs) < limit)
  {
    if key in After(events, limit, windowMs) {
      var first := CountIsSpent(events, key, limit, windowMs);
      assert LastOpening(events, first, key, limit, windowMs);
    }
  }

  predicate LastOpening(events: seq<Event>, first: nat, key: string, limit: int, windowMs: int) {
    Opens(events, first, key, limit, windowMs) && forall i :: first < i < |events| ==> !Opens(events, i, key, limit, windowMs)
  }

  // ---- The bound ------------------------------------------------------------------------

  function CountIn(log: seq<Admit>, lo: int, hi: int): nat {
    if log == [] then 0
    else CountIn(log[..|log| - 1], lo, hi) + if lo <= log[|log| - 1].at < hi then 1 else 0
  }

  lemma {:induction false} CountInSuffix(log: seq<Admit>, lo: int, hi: int, c: nat)
    requires forall i :: 0 <= i < |log| - c ==> !(lo <= log[i].at < hi)
    ensures CountIn(log, lo, hi) <= c
  {
    if log != [] {
      var init := log[..|log| - 1];
      if c > 0 { CountInSuffix(init, lo, hi, c - 1); } else { CountInSuffix(init, lo, hi, 0); }
    }
  }

  /** Calls that lie `width` apart whenever `c` others lie between them are at most `c` in any such interval. */
  lemma {:induction false} SpreadBound(log: seq<Admit>, lo: int, width: int, c: nat)
    requires forall i, j :: 0 <= i < |log| && j == i + c < |log| ==> log[i].at + width <= log[j].at
    requires forall i, j :: 0 <= i < j < |log| ==> log[i].at <= log[j].at
    ensures CountIn(log, lo, lo + width) <= c
  {
    if log != [] {
      var n := |log| - 1;
      if lo <= log[n].at < lo + width {
        forall i | 0 <= i < |log| - c ensures !(lo <= log[i].at < lo + width) {
          assert log[n - c].at + width <= log[n].at;
          assert i < n - c ==> log[i].at <= log[n - c].at;
        }
        CountInSuffix(log, lo, lo + width, c);
      } else {
        SpreadBound(log[..n], lo, width, c);
      }
    }
  }

  /**
   In any half-open interval no longer than a window at most two windows' worth of
   calls is admitted; once the cleanup has run, only up to 120001 ms of a longer window.
   */
  lemma AtMostTwoWindows(events: seq<Event>, key: string, limit: int, windowMs: int, width: int, lo: int)
    requires InTimeOrder(events) && Respected(events, windowMs, width)
    ensures CountIn(Log(events, key, limit, windowMs), lo, lo + width) <= 2 * Cap(limit)
  {
    var log, cap := Log(events, key, limit, windowMs), Cap(limit);
    if width <= 0 {
      CountInSuffix(log, lo, lo + width, 0);
    } else {
      RunTracks(events, key, limit, windowMs, width);
      forall i, j | 0 <= i < |log| && j == i + 2 * cap < |log| ensures log[i].at + width <= log[j].at {
        var m := i + cap;
        assert Apart(log[i], log[m], width) && Apart(log[m], log[j], width);
        assert log[i].start != log[m].start && log[m].start != log[j].start;
      }
      SpreadBound(log, lo, width, 2 * cap);
    }
  }

  // ---- Without incrementBy the bound is one less ------------------------------------------

  predicate NeverAdds(events: seq<Event>, key: string) {
    forall i :: 0 <= i < |events| && events[i].Add? ==> events[i].key != key
  }

  /** The first call counted in a window is the one that opened it. */
  predicate OpenedByCall(log: seq<Admit>) {
    forall i :: 0 <= i < |log| && log[i].at != log[i].start ==> i > 0 && log[i - 1].start == log[i].start
  }

  lemma {:induction false} WindowsOpenWithCalls(events: seq<Event>, key: string, limit: int, windowMs: int)
    requires InTimeOrder(events) && NeverAdds(events, key)
    ensures OpenedByCall(Log(events, key, limit, windowMs))
    ensures key in After(events, limit, windowMs) ==>
              var log := Log(events, key, limit, windowMs);
              log != [] && log[|log| - 1].start == After(events, limit, windowMs)[key].start
  {
    if events != [] {
      var init, last := events[..|events| - 1], events[|events| - 1];
      WindowsOpenWithCalls(init, key, limit, windowMs);
      var log := Log(init, key, limit, windowMs);
      assert log + [] == log;
    }
  }

  /** The sharp bound for a key that is only counted by `checkAndIncrement`. */
  lemma AtMostTwoWindowsLessOne(events: seq<Event>, key: string, limit: int, windowMs: int, width: int, lo: int)
    requires InTimeOrder(events) && Respected(events, windowMs, width) && NeverAdds(events, key)
    ensures CountIn(Log(events, key, limit, windowMs), lo, lo + width) <= 2 * Cap(limit) - 1
  {
    var log, cap := Log(events, key, limit, windowMs), Cap(limit);
    if width <= 0 {
      CountInSuffix(log, lo, lo + width, 0);
    } else {
      RunTracks(events, key, limit, windowMs, width);
      WindowsOpenWithCalls(events, key, limit, windowMs);
      forall i, j | 0 <= i < |log| && j == i + (2 * cap - 1) < |log| ensures log[i].at + width <= log[j].at {
        SpreadOfTwoWindows(log, cap, width, i, j);
      }
      SpreadBound(log, lo, width, 2 * cap - 1);
    }
  }

  lemma SpreadOfTwoWindows(log: seq<Admit>, cap: nat, width: int, i: nat, j: nat)
    requires cap >= 1 && j == i + (2 * cap - 1) < |log| && width >= 1
    requires Windowed(log, cap, width) && OpenedByCall(log)
    ensures log[i].at + width <= log[j].at
  {
    if log[i].at == log[i].start {
      var k := i + cap;
      assert log[i].start != log[k].start;
      assert Apart(log[i], log[k], width);
      assert k < j ==> Apart(log[k], log[j], width);
    } else {
      var h, k := i - 1, i - 1 + cap;
      assert log[h].start != log[k].start && log[k].start != log[j].start;
      assert i < k ==> Apart(log[i], log[k], width);
      assert Apart(log[k], log[j], width);
    }
  }

  lemma OneMoreCall(events: seq<Event>, ws: Windows, log: seq<Admit>, key: string, limit: int, windowMs: int, at: int, lo: int)
    requires After(events, limit, windowMs) == ws && Log(events, key, limit, windowMs) == log
    requires Admits(ws, key, limit, windowMs, at)
    ensures After(events + [Check(key, at)], limit, windowMs) == Added(ws, key, 1, windowMs, at)
    ensures Log(events + [Check(key, at)], key, limit, windowMs)
         == log + [Admit(at, if Live(ws, key, windowMs, at) then ws[key].start else at)]
    ensures CountIn(Log(events + [Check(key, at)], key, limit, windowMs), lo, lo + windowMs)
         == CountIn(log, lo, lo + windowMs) + if lo <= at < lo + windowMs then 1 else 0
  {
    var more := events + [Check(key, at)];
    assert more[..|more| - 1] == events;
    var log' := log + [Admit(at, if Live(ws, key, windowMs, at) then ws[key].start else at)];
    assert log'[..|log'| - 1] == log;
  }

  /** The sharp bound is reached: three calls in a minute with a limit of two. */
  lemma CallsReachBound()
    ensures var events := [] + [Check("k", 0)] + [Check("k", 59_999)] + [Check("k", 60_000)] + [Check("k", 60_000)];
            InTimeOrder(events) && CountIn(Log(events, "k", 2, 60_000), 59_999, 59_999 + 60_000) == 3
  {
    var lo, w := 59_999, 60_000;
    var w1, w2, w3 := map["k" := Entry(0, 1)], map["k" := Entry(0, 2)], map["k" := Entry(w, 1)];
    var l1, l2, l3 := [Admit(0, 0)], [Admit(0, 0), Admit(lo, 0)], [Admit(0, 0), Admit(lo, 0), Admit(w, w)];
    OneMoreCall([], map[], [], "k", 2, w, 0, lo);
    OneMoreCall([] + [Check("k", 0)], w1, l1, "k", 2, w, lo, lo);
    OneMoreCall([] + [Check("k", 0)] + [Check("k", lo)], w2, l2, "k", 2, w, w, lo);
    OneMoreCall([] + [Check("k", 0)] + [Check("k", lo)] + [Check("k", w)], w3, l3, "k", 2, w, w, lo);
  }

  /** With `incrementBy` opening the window the other bound is reached too: two calls with a limit of one. */
  lemma AddsReachBound()
    ensures var events := [Add("k", 0, 0)] + [Check("k", 59_999)] + [Check("k", 60_000)];
            InTimeOrder(events) && CountIn(Log(events, "k", 1, 60_000), 59_999, 59_999 + 60_000) == 2
  {
    var first := [Add("k", 0, 0)];
    assert first[..0] == [];
    assert After(first, 1, 60_000) == map["k" := Entry(0, 0)];
    assert Log(first, "k", 1, 60_000) == [];
    OneMoreCall(first, map["k" := Entry(0, 0)], [], "k", 1, 60_000, 59_999, 59_999);
    OneMoreCall(first + [Check("k", 59_999)], map["k" := Entry(0, 1)], [Admit(59_999, 0)], "k", 1, 60_000, 60_000, 59_999);
  }

  // ---- The cleanup timer ----------------------------------------------------------------------

  /** The same events without the turns of the timer. */
  function WithoutCleaning(events: seq<Event>): seq<Event> {
    if events == [] then []
    else
      var init, last := events[..|events| - 1], events[|events| - 1];
      WithoutCleaning(init) + if last.Clean? then [] else [last]
  }

  /** The two maps agree on every window that has not run out. */
  ghost predicate SameLive(ws: Windows, ws': Windows, windowMs: int, now: int) {
    forall key :: (Live(ws, key, windowMs, now) || Live(ws', key, windowMs, now)) ==>
      key in ws && key in ws' && ws[key] == ws'[key]
  }

  lemma {:induction false} CleaningKeepsLive(events: seq<Event>, limit: int, windowMs: int, now: int)
    requires InTimeOrder(events) && windowMs <= MAX_WINDOW + 1
    requires events == [] || Last(events) <= now
    ensures SameLive(After(events, limit, windowMs), After(WithoutCleaning(events), limit, windowMs), windowMs, now)
  {
    if events != [] {
      var init, last := events[..|events| - 1], events[|events| - 1];
      CleaningKeepsLive(init, limit, windowMs, last.at);
      var kept := WithoutCleaning(events);
      if last.Clean? {
        assert kept == WithoutCleaning(init);
      } else {
        assert kept[..|kept| - 1] == WithoutCleaning(init) && kept[|kept| - 1] == last;
      }
    }
  }

  /** No decision, and nothing `getRemaining` says, depends on when the cleanup runs. */
  lemma CleaningChangesNothing(events: seq<Event>, key: string, limit: int, windowMs: int, now: int)
    requires InTimeOrder(events) && windowMs <= MAX_WINDOW + 1
    requires events == [] || Last(events) <= now
    ensures Admits(After(events, limit, windowMs), key, limit, windowMs, now)
         == Admits(After(WithoutCleaning(events), limit, windowMs), key, limit, windowMs, now)
    ensures Remaining(After(events, limit, windowMs), key, limit, windowMs, now)
         == Remaining(After(WithoutCleaning(events), limit, windowMs), key, limit, windowMs, now)
  {
    CleaningKeepsLive(events, limit, windowMs, now);
  }

  /** Whether the timer can make no difference to calls under these settings. */
  ghost predicate CleaningIsHarmless(limit: int, windowMs: int) {
    forall events: seq<Event>, key: string, now: int | InTimeOrder(events) && (events == [] || Last(events) <= now) ::
      Admits(After(events, limit, windowMs), key, limit, windowMs, now)
        == Admits(After(WithoutCleaning(events), limit, windowMs), key, limit, windowMs, now)
  }

  /** A longer window that is full is forgotten too early. */
  lemma LongWindowForgotten(limit: int, windowMs: int) returns (full: seq<Event>, cleaned: seq<Event>)
    requires windowMs > MAX_WINDOW + 1
    ensures InTimeOrder(cleaned) && cleaned != [] && Last(cleaned) == MAX_WINDOW + 1 && WithoutCleaning(cleaned) == full
    ensures Admits(After(cleaned, limit, windowMs), "k", limit, windowMs, MAX_WINDOW + 1)
    ensures !Admits(After(full, limit, windowMs), "k", limit, windowMs, MAX_WINDOW + 1)
  {
    var amount: nat := if limit >= 0 then limit else 0;
    full, cleaned := [Add("k", amount, 0)], [Add("k", amount, 0), Clean(MAX_WINDOW + 1)];
    assert full[..0] == [] && cleaned[..1] == full;
    assert WithoutCleaning(full) == full && WithoutCleaning(cleaned) == full;
    assert After(full, limit, windowMs) == map["k" := Entry(0, amount)];
    assert After(cleaned, limit, windowMs) == Cleaned(After(full, limit, windowMs), MAX_WINDOW + 1);
    assert "k" !in After(cleaned, limit, windowMs);
  }

  /** The longest window that the cleanup respects is 120001 ms. */
  lemma CleaningIsHarmlessIff(limit: int, windowMs: int)
    ensures CleaningIsHarmless(limit, windowMs) <==> windowMs <= MAX_WINDOW + 1
  {
    if windowMs <= MAX_WINDOW + 1 {
      forall events: seq<Event>, key: string, now: int | InTimeOrder(events) && (events == [] || Last(events) <= now)
        ensures Admits(After(events, limit, windowMs), key, limit, windowMs, now)
             == Admits(After(WithoutCleaning(events), limit, windowMs), key, limit, windowMs, now)
      {
        CleaningChangesNothing(events, key, limit, windowMs, now);
      }
    } else {
      var full, cleaned := LongWindowForgotten(limit, windowMs);
      assert Admits(After(cleaned, limit, windowMs), "k", limit, windowMs, MAX_WINDOW + 1)
          != Admits(After(WithoutCleaning(cleaned), limit, windowMs), "k", limit, windowMs, MAX_WINDOW + 1);
    }
  }

  // ---- Long windows lose the bound to the cleanup ------------------------------------------------

  /** `n` more calls at one moment. */
  function Burst(events: seq<Event>, key: string, at: int, n: nat): seq<Event> {
    if n == 0 then events else Burst(events, key, at, n - 1) + [Check(key, at)]
  }

  predicate EndsBy(events: seq<Event>, at: int) {
    InTimeOrder(events) && (events != [] ==> Last(events) <= at)
  }

  lemma OneMoreInOrder(events: seq<Event>, e: Event)
    requires EndsBy(events, e.at)
    ensures EndsBy(events + [e], e.at)
  {
    var more := events + [e];
    forall i, j | 0 <= i < j < |more| ensures more[i].at <= more[j].at {
      assert i < |events| - 1 ==> events[i].at <= events[|events| - 1].at;
    }
  }

  /** How many calls a stretch of window length from `lo` on holds. */
  function AdmittedFrom(events: seq<Event>, key: string, limit: int, windowMs: int, lo: int): nat {
    CountIn(Log(events, key, limit, windowMs), lo, lo + windowMs)
  }

  /** Where a run stands that has only ever counted one key. */
  predicate Stands(events: seq<Event>, key: string, limit: int, windowMs: int, lo: int, at: int, e: Entry, admitted: int) {
    && After(events, limit, windowMs) == map[key := e] && EndsBy(events, at)
    && AdmittedFrom(events, key, limit, windowMs, lo) == admitted
  }

  lemma CallStands(events: seq<Event>, key: string, limit: int, windowMs: int, lo: int, at: int, e: Entry, admitted: int)
    requires Stands(events, key, limit, windowMs, lo, at, e, admitted)
    requires 0 <= at - e.start < windowMs && e.count < limit && lo <= at < lo + windowMs
    ensures Stands(events + [Check(key, at)], key, limit, windowMs, lo, at, Entry(e.start, e.count + 1), admitted + 1)
  {
    hide CountIn, EndsBy, After, Log;
    var ws := After(events, limit, windowMs);
    OneMoreCall(events, ws, Log(events, key, limit, windowMs), key, limit, windowMs, at, lo);
    OneMoreInOrder(events, Check(key, at));
  }

  /** A burst is admitted as long as the limit allows. */
  lemma {:induction false} BurstStands(events: seq<Event>, key: string, limit: int, windowMs: int, lo: int, at: int, e: Entry,
                                       admitted: int, n: nat)
    requires Stands(events, key, limit, windowMs, lo, at, e, admitted)
    requires 0 <= at - e.start < windowMs && e.count + n <= limit && lo <= at < lo + windowMs
    ensures Stands(Burst(events, key, at, n), key, limit, windowMs, lo, at, Entry(e.start, e.count + n), admitted + n)
    decreases n
  {
    hide Stands;
    if n > 0 {
      BurstStands(events, key, limit, windowMs, lo, at, e, admitted, n - 1);
      CallStands(Burst(events, key, at, n - 1), key, limit, windowMs, lo, at, Entry(e.start, e.count + n - 1), admitted + n - 1);
    }
  }

  lemma CleanedLog(events: seq<Event>, key: string, limit: int, windowMs: int, at: int)
    ensures After(events + [Clean(at)], limit, windowMs) == Cleaned(After(events, limit, windowMs), at)
    ensures Log(events + [Clean(at)], key, limit, windowMs) == Log(events, key, limit, windowMs)
  {
    var cleaned := events + [Clean(at)];
    assert cleaned[..|cleaned| - 1] == events;
    assert Log(events, key, limit, windowMs) + [] == Log(events, key, limit, windowMs);
  }

  /** The cleanup forgets a long window, and the next call opens another at once. */
  lemma CleanedStands(events: seq<Event>, key: string, limit: int, windowMs: int, lo: int, before: int, at: int, e: Entry, admitted: int)
    requires Stands(events, key, limit, windowMs, lo, before, e, admitted) && before <= at
    requires at - e.start > MAX_WINDOW && lo <= at < lo + windowMs
    ensures Stands(events + [Clean(at)] + [Check(key, at)], key, limit, windowMs, lo, at, Entry(at, 1), admitted + 1)
  {
    hide CountIn, After, Log, InTimeOrder;
    var cleaned := events + [Clean(at)];
    CleanedLog(events, key, limit, windowMs, at);
    assert After(cleaned, limit, windowMs) == map[];
    OneMoreCall(cleaned, map[], Log(cleaned, key, limit, windowMs), key, limit, windowMs, at, lo);
    OneMoreInOrder(events, Clean(at));
    OneMoreInOrder(cleaned, Check(key, at));
  }

  /** A full window, cleaned away, then another one, and a call in a third: all within one window's length. */
  function ThreeWindows(limit: nat): seq<Event>
    requires limit >= 1
  {
    var T := MAX_WINDOW + 1;
    Burst(Burst([Add("k", 0, 0)], "k", T, limit) + [Clean(T)] + [Check("k", T)], "k", T, limit - 1)
      + [Clean(2 * T)] + [Check("k", 2 * T)]
  }

  lemma FirstStands(limit: int, windowMs: int)
    ensures Stands([Add("k", 0, 0)], "k", limit, windowMs, MAX_WINDOW + 1, MAX_WINDOW + 1, Entry(0, 0), 0)
  {
    var first := [Add("k", 0, 0)];
    assert first[..0] == [];
    assert After(first, limit, windowMs) == map["k" := Entry(0, 0)] && Log(first, "k", limit, windowMs) == [];
  }

  lemma ThreeWindowsCount(limit: nat, windowMs: int)
    requires limit >= 1 && windowMs > MAX_WINDOW + 1
    ensures InTimeOrder(ThreeWindows(limit))
    ensures AdmittedFrom(ThreeWindows(limit), "k", limit, windowMs, MAX_WINDOW + 1) == 2 * limit + 1
  {
    hide After, AdmittedFrom, Burst, InTimeOrder;
    var T := MAX_WINDOW + 1;
    var first := [Add("k", 0, 0)];
    FirstStands(limit, windowMs);
    BurstStands(first, "k", limit, windowMs, T, T, Entry(0, 0), 0, limit);
    var one := Burst(first, "k", T, limit);
    CleanedStands(one, "k", limit, windowMs, T, T, T, Entry(0, limit), limit);
    var two := one + [Clean(T)] + [Check("k", T)];
    BurstStands(two, "k", limit, windowMs, T, T, Entry(T, 1), limit + 1, limit - 1);
    CleanedStands(Burst(two, "k", T, limit - 1), "k", limit, windowMs, T, T, 2 * T, Entry(T, limit), 2 * limit);
  }

  /** Whether two windows' worth of calls is the most that any stretch of window length can hold. */
  ghost predicate TwoWindowsAtMost(limit: int, windowMs: int) {
    forall events: seq<Event>, key: string, lo: int | InTimeOrder(events) ::
      AdmittedFrom(events, key, limit, windowMs, lo) <= 2 * Cap(limit)
  }

  /** With the cleanup running, exactly windows up to 120001 ms keep the bound. */
  lemma TwoWindowsIff(limit: int, windowMs: int)
    requires limit >= 1
    ensures TwoWindowsAtMost(limit, windowMs) <==> windowMs <= MAX_WINDOW + 1
  {
    if windowMs <= MAX_WINDOW + 1 {
      forall events: seq<Event>, key: string, lo: int | InTimeOrder(events)
        ensures AdmittedFrom(events, key, limit, windowMs, lo) <= 2 * Cap(limit)
      {
        AtMostTwoWindows(events, key, limit, windowMs, windowMs, lo);
      }
    } else {
      ThreeWindowsCount(limit, windowMs);
      assert AdmittedFrom(ThreeWindows(limit), "k", limit, windowMs, MAX_WINDOW + 1) > 2 * Cap(limit);
    }
  }
}
