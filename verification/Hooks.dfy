/**
 Request hooks and the parallel-request limiter among them. A step is one stretch of
 code between two awaits; the steps of different request contexts interleave freely.
 */
module Hooks {

  type Key = string

  /** The contexts, identified by number; which project key each belongs to and its `maxParallel` (0 for none). */
  datatype Config = Config(hooks: seq<Hook>, keyOf: nat -> Key, limitOf: nat -> int)

  datatype Hook = Limiter | Other(name: string)

  /** Whether the hook called last is still to be resumed after, and how its preCall went. */
  datatype Pending = Idle | Accepted | Rejected

  /**
   A run of the hooks for one context: the hooks acquired, by position, the state of
   the one after them, whether `runPreCall` has ended, whether the run is settled, and
   the hooks that have been told of the completion, in order.
   */
  datatype Run = Run(acquired: seq<nat>, pending: Pending, over: bool, settled: bool, completions: seq<nat>)

  /** The limiter's counters per key, and the contexts they count. */
  datatype Counters = Counters(inFlight: map<Key, nat>, owners: set<nat>)

  datatype State = State(runs: map<nat, Run>, counters: Counters)

  function InFlight(k: Counters, key: Key): nat {
    if key in k.inFlight then k.inFlight[key] else 0
  }

  // ---- The limiter ---------------------------------------------------------------------------

  predicate Refuses(cfg: Config, k: Counters, c: nat) {
    cfg.limitOf(c) > 0 && InFlight(k, cfg.keyOf(c)) >= cfg.limitOf(c)
  }

  function Acquired(cfg: Config, k: Counters, c: nat): Counters {
    if cfg.limitOf(c) <= 0 then k
    else Counters(k.inFlight[cfg.keyOf(c) := InFlight(k, cfg.keyOf(c)) + 1], k.owners + {c})
  }

  function Decremented(cfg: Config, k: Counters, c: nat): Counters {
    if c !in k.owners then k
    else if InFlight(k, cfg.keyOf(c)) <= 1 then Counters(k.inFlight - {cfg.keyOf(c)}, k.owners - {c})
    else Counters(k.inFlight[cfg.keyOf(c) := k.inFlight[cfg.keyOf(c)] - 1], k.owners - {c})
  }

  // ---- The registry ----------------------------------------------------------------------------

  datatype Event =
    | Begin(c: nat)
    | Call(c: nat, accepts: bool)
    | Resume(c: nat)
    | PostSuccess(c: nat)
    | PostFailure(c: nat)

  /** What the completions of these hooks, one after the other, do to the limiter. */
  function Told(cfg: Config, k: Counters, c: nat, hooks: seq<nat>): Counters {
    if hooks == [] then k
    else
      var t := Told(cfg, k, c, hooks[..|hooks| - 1]);
      var hook := hooks[|hooks| - 1];
      if hook < |cfg.hooks| && cfg.hooks[hook].Limiter? then Decremented(cfg, t, c) else t
  }

  function Reversed(s: seq<nat>): seq<nat> {
    if s == [] then [] else [s[|s| - 1]] + Reversed(s[..|s| - 1])
  }

  /** The hooks 0, 1, .., n - 1. */
  function UpTo(n: nat): seq<nat> {
    if n == 0 then [] else UpTo(n - 1) + [n - 1]
  }

  lemma {:induction false} UpToAt(n: nat)
    ensures |UpTo(n)| == n && forall i :: 0 <= i < n ==> UpTo(n)[i] == i
  {
    if n > 0 { UpToAt(n - 1); }
  }

  lemma {:induction false} ReversedAt(s: seq<nat>)
    ensures |Reversed(s)| == |s| && forall i :: 0 <= i < |s| ==> Reversed(s)[i] == s[|s| - 1 - i]
  {
    if s != [] { ReversedAt(s[..|s| - 1]); }
  }

  /** The order in which settling tells the acquired hooks. */
  function Order(run: Run, succeeded: bool): seq<nat> {
    if succeeded then run.acquired else Reversed(run.acquired)
  }

  /** `settle` and the completions that follow it: only the first call for a context has any. */
  function Settled(cfg: Config, s: State, c: nat, succeeded: bool): State {
    if c !in s.runs || s.runs[c].settled then s
    else
      var order := Order(s.runs[c], succeeded);
      State(s.runs[c := s.runs[c].(settled := true, completions := s.runs[c].completions + order)],
            Told(cfg, s.counters, c, order))
  }

  /** The acquired hooks are the first ones. */
  ghost predicate Sane(cfg: Config, s: State) {
    forall c :: c in s.runs ==>
      && s.runs[c].acquired == UpTo(|s.runs[c].acquired|)
      && |s.runs[c].acquired| <= |cfg.hooks|
      && (s.runs[c].pending != Idle ==> !s.runs[c].over)
      && (!s.runs[c].over ==> |s.runs[c].acquired| < |cfg.hooks|)
  }

  /** A context is run through the hooks once; `Call` and `Resume` alternate until `runPreCall` ends. */
  predicate Enabled(s: State, e: Event) {
    match e
    case Begin(c) => c !in s.runs
    case Call(c, _) => c in s.runs && !s.runs[c].over && s.runs[c].pending == Idle
    case Resume(c) => c in s.runs && s.runs[c].pending != Idle
    case PostSuccess(_) => true
    case PostFailure(_) => true
  }

  /** What every caller keeps to: a context is settled only after its `runPreCall` has ended. */
  predicate InOrder(s: State, e: Event) {
    (e.PostSuccess? || e.PostFailure?) && e.c in s.runs ==> s.runs[e.c].over
  }

  function Step(cfg: Config, s: State, e: Event): State
    requires Enabled(s, e)
  {
    match e
    case Begin(c) => s.(runs := s.runs[c := Run([], Idle, cfg.hooks == [], false, [])])
    case Call(c, accepts) => Called(cfg, s, c, accepts)
    case Resume(c) => Resumed(cfg, s, c)
    case PostSuccess(c) => Settled(cfg, s, c, true)
    case PostFailure(c) => Settled(cfg, s, c, false)
  }

  /** The next hook's preCall. The limiter decides by its counter, any other hook as it likes. */
  function Called(cfg: Config, s: State, c: nat, accepts: bool): State
    requires c in s.runs
  {
    var run := s.runs[c];
    if |run.acquired| < |cfg.hooks| && cfg.hooks[|run.acquired|].Limiter? then
      if Refuses(cfg, s.counters, c) then s.(runs := s.runs[c := run.(pending := Rejected)])
      else State(s.runs[c := run.(pending := Accepted)], Acquired(cfg, s.counters, c))
    else s.(runs := s.runs[c := run.(pending := if accepts then Accepted else Rejected)])
  }

  /** After the await: note the hook as acquired, or end with a failure. */
  function Resumed(cfg: Config, s: State, c: nat): State
    requires c in s.runs
  {
    var run := s.runs[c];
    if run.pending == Accepted then
      var acquired := run.acquired + [|run.acquired|];
      s.(runs := s.runs[c := run.(acquired := acquired, pending := Idle, over := |acquired| == |cfg.hooks|)])
    else Settled(cfg, s.(runs := s.runs[c := run.(pending := Idle, over := true)]), c, false)
  }

  // ---- What holds of every run -------------------------------------------------------------------

  predicate LimiterOnce(cfg: Config) {
    forall i, j :: 0 <= i < j < |cfg.hooks| ==> !(cfg.hooks[i].Limiter? && cfg.hooks[j].Limiter?)
  }

  /** The limiter has accepted the context. */
  predicate PassedLimiter(cfg: Config, run: Run) {
    exists p :: 0 <= p < |cfg.hooks| && cfg.hooks[p].Limiter? && (p < |run.acquired| || (p == |run.acquired| && run.pending == Accepted))
  }

  /** The context has been counted and has not settled. */
  predicate Holds(cfg: Config, s: State, c: nat) {
    c in s.runs && !s.runs[c].settled && cfg.limitOf(c) > 0 && PassedLimiter(cfg, s.runs[c])
  }

  /** The context has been counted and the limiter has not been told of its completion. */
  predicate Owns(cfg: Config, s: State, c: nat) {
    c in s.runs && cfg.limitOf(c) > 0 && PassedLimiter(cfg, s.runs[c]) && !HasLimiter(cfg, s.runs[c].completions)
  }

  function OwnersOf(cfg: Config, owners: set<nat>, key: Key): set<nat> {
    set c | c in owners && cfg.keyOf(c) == key
  }

  /** Every counter is the number of owners of its key, and no counter is zero. */
  ghost predicate Counted(cfg: Config, k: Counters) {
    && (forall key :: InFlight(k, key) == |OwnersOf(cfg, k.owners, key)|)
    && (forall key :: key in k.inFlight ==> k.inFlight[key] > 0)
  }

  ghost predicate OwnersOwn(cfg: Config, s: State) {
    forall c :: c in s.counters.owners <==> Owns(cfg, s, c)
  }

  /** Once settled the first so many acquired hooks are told, in order or in reverse; nobody before. */
  predicate Completed(run: Run) {
    var n := |run.completions|;
    n <= |run.acquired| && (run.settled || n == 0) && (run.completions == UpTo(n) || run.completions == Reversed(UpTo(n)))
  }

  ghost predicate Safe(cfg: Config, s: State) {
    && Sane(cfg, s)
    && Counted(cfg, s.counters)
    && OwnersOwn(cfg, s)
    && (forall c :: c in s.runs ==> Completed(s.runs[c]))
  }

  lemma AcquiredIsCounted(cfg: Config, k: Counters, c: nat)
    requires Counted(cfg, k) && c !in k.owners
    ensures Counted(cfg, Acquired(cfg, k, c))
  {
    if cfg.limitOf(c) > 0 {
      forall key ensures InFlight(Acquired(cfg, k, c), key) == |OwnersOf(cfg, k.owners + {c}, key)| {
        assert InFlight(k, key) == |OwnersOf(cfg, k.owners, key)|;
        OneMoreOwner(cfg, k.owners, c, key);
      }
    }
  }

  lemma OneMoreOwner(cfg: Config, owners: set<nat>, c: nat, key: Key)
    requires c !in owners
    ensures |OwnersOf(cfg, owners + {c}, key)| == |OwnersOf(cfg, owners, key)| + if cfg.keyOf(c) == key then 1 else 0
  {
    if cfg.keyOf(c) == key {
      assert OwnersOf(cfg, owners + {c}, key) == OwnersOf(cfg, owners, key) + {c};
    } else {
      assert OwnersOf(cfg, owners + {c}, key) == OwnersOf(cfg, owners, key);
    }
  }

  lemma DecrementedIsCounted(cfg: Config, k: Counters, c: nat)
    requires Counted(cfg, k)
    ensures Counted(cfg, Decremented(cfg, k, c))
  {
    if c in k.owners {
      assert c in OwnersOf(cfg, k.owners, cfg.keyOf(c));
      assert InFlight(k, cfg.keyOf(c)) == |OwnersOf(cfg, k.owners, cfg.keyOf(c))|;
      forall key ensures InFlight(Decremented(cfg, k, c), key) == |OwnersOf(cfg, k.owners - {c}, key)| {
        assert InFlight(k, key) == |OwnersOf(cfg, k.owners, key)|;
        assert OwnersOf(cfg, k.owners - {c}, key)
            == if key == cfg.keyOf(c) then OwnersOf(cfg, k.owners, key) - {c} else OwnersOf(cfg, k.owners, key);
      }
    }
  }

  predicate HasLimiter(cfg: Config, hooks: seq<nat>) {
    exists i :: 0 <= i < |hooks| && hooks[i] < |cfg.hooks| && cfg.hooks[hooks[i]].Limiter?
  }

  /** Completions give the context's slot back if the limiter is among the hooks told. */
  lemma {:induction false} ToldEffect(cfg: Config, k: Counters, c: nat, hooks: seq<nat>)
    requires Counted(cfg, k)
    ensures Told(cfg, k, c, hooks).owners == if HasLimiter(cfg, hooks) then k.owners - {c} else k.owners
    ensures Counted(cfg, Told(cfg, k, c, hooks))
    decreases |hooks|
  {
    if hooks != [] {
      var init, last := hooks[..|hooks| - 1], hooks[|hooks| - 1];
      ToldEffect(cfg, k, c, init);
      DecrementedIsCounted(cfg, Told(cfg, k, c, init), c);
      HasLimiterSnoc(cfg, init, last);
      assert hooks == init + [last];
    }
  }

  lemma HasLimiterSnoc(cfg: Config, init: seq<nat>, last: nat)
    ensures HasLimiter(cfg, init + [last]) <==> HasLimiter(cfg, init) || (last < |cfg.hooks| && cfg.hooks[last].Limiter?)
  {
    var all := init + [last];
    if HasLimiter(cfg, init) {
      var i :| 0 <= i < |init| && init[i] < |cfg.hooks| && cfg.hooks[init[i]].Limiter?;
      assert all[i] == init[i];
    }
    assert all[|init|] == last;
  }

  /** Where hook i stands among the first n told. */
  function PlaceIn(n: nat, i: nat, inOrder: bool): nat
    requires i < n
  {
    if inOrder then i else n - 1 - i
  }

  lemma CompletionAt(order: seq<nat>, inOrder: bool)
    requires order == if inOrder then UpTo(|order|) else Reversed(UpTo(|order|))
    ensures forall i :: 0 <= i < |order| ==> order[i] == PlaceIn(|order|, i, inOrder)
  {
    UpToAt(|order|);
    ReversedAt(UpTo(|order|));
  }

  /** The first n hooks, in either order, include the limiter if its position is below n. */
  lemma LimiterAmong(cfg: Config, order: seq<nat>)
    requires order == UpTo(|order|) || order == Reversed(UpTo(|order|))
    ensures HasLimiter(cfg, order) <==> exists p :: 0 <= p < |order| && p < |cfg.hooks| && cfg.hooks[p].Limiter?
  {
    hide UpTo, Reversed;
    var n, inOrder := |order|, order == UpTo(|order|);
    CompletionAt(order, inOrder);
    forall p | 0 <= p < n && p < |cfg.hooks| && cfg.hooks[p].Limiter? ensures HasLimiter(cfg, order) {
      var i := PlaceIn(n, p, inOrder);
      assert order[i] == p;
    }
  }

  /** Nothing changes for the other contexts. */
  lemma OwnersAfter(cfg: Config, s: State, c: nat, run: Run, k: Counters)
    requires OwnersOwn(cfg, s)
    requires k.owners == s.counters.owners + {c} || k.owners == s.counters.owners - {c} || k.owners == s.counters.owners
    requires c in k.owners <==> cfg.limitOf(c) > 0 && PassedLimiter(cfg, run) && !HasLimiter(cfg, run.completions)
    ensures OwnersOwn(cfg, State(s.runs[c := run], k))
  {
    hide PassedLimiter, HasLimiter;
    var r := State(s.runs[c := run], k);
    forall d ensures d in r.counters.owners <==> Owns(cfg, r, d) {
      assert d != c ==> (Owns(cfg, r, d) <==> Owns(cfg, s, d));
    }
  }

  lemma OrderCompletes(run: Run, succeeded: bool)
    requires run.acquired == UpTo(|run.acquired|) && run.completions == []
    ensures |Order(run, succeeded)| == |run.acquired| && run.completions + Order(run, succeeded) == Order(run, succeeded)
    ensures Completed(run.(settled := true, completions := Order(run, succeeded)))
  {
    ReversedAt(run.acquired);
  }

  lemma SettledIsSafe(cfg: Config, s: State, c: nat, succeeded: bool)
    requires Safe(cfg, s)
    ensures Safe(cfg, Settled(cfg, s, c, succeeded))
  {
    hide Told, Reversed, UpTo, PassedLimiter, HasLimiter, Counted;
    if c in s.runs && !s.runs[c].settled {
      var run := s.runs[c];
      OrderCompletes(run, succeeded);
      ToldEffect(cfg, s.counters, c, Order(run, succeeded));
      NoneIsNoLimiter(cfg);
      assert c in s.counters.owners <==> Owns(cfg, s, c);
      var after := run.(settled := true, completions := Order(run, succeeded));
      SamePassed(cfg, run, after);
      OwnersAfter(cfg, s, c, after, Told(cfg, s.counters, c, Order(run, succeeded)));
    }
  }

  lemma SamePassed(cfg: Config, run: Run, after: Run)
    requires after.acquired == run.acquired && after.pending == run.pending
    ensures PassedLimiter(cfg, after) <==> PassedLimiter(cfg, run)
  {
  }

  lemma NoneIsNoLimiter(cfg: Config)
    ensures !HasLimiter(cfg, [])
  {
  }

  lemma CalledIsSafe(cfg: Config, s: State, c: nat, accepts: bool)
    requires LimiterOnce(cfg) && Safe(cfg, s) && Enabled(s, Call(c, accepts))
    ensures Safe(cfg, Called(cfg, s, c, accepts))
  {
    hide Told, Reversed, UpTo, HasLimiter, Counted;
    var run := s.runs[c];
    var r := Called(cfg, s, c, accepts);
    assert c in s.counters.owners <==> Owns(cfg, s, c);
    if cfg.hooks[|run.acquired|].Limiter? {
      NotYetPassed(cfg, run);
      AcquiredIsCounted(cfg, s.counters, c);
    } else {
      assert PassedLimiter(cfg, r.runs[c]) <==> PassedLimiter(cfg, run);
    }
    OwnersAfter(cfg, s, c, r.runs[c], r.counters);
  }

  /** Before the limiter is called it has not counted the context and has not been told. */
  lemma NotYetPassed(cfg: Config, run: Run)
    requires LimiterOnce(cfg) && Completed(run) && |run.acquired| < |cfg.hooks| && cfg.hooks[|run.acquired|].Limiter?
    ensures run.pending != Accepted ==> !PassedLimiter(cfg, run)
    ensures PassedLimiter(cfg, run.(pending := Accepted)) && !PassedLimiter(cfg, run.(pending := Rejected))
    ensures !HasLimiter(cfg, run.completions)
  {
    hide Reversed, UpTo, HasLimiter;
    LimiterAmong(cfg, run.completions);
  }

  lemma ResumedIsSafe(cfg: Config, s: State, c: nat)
    requires Safe(cfg, s) && Enabled(s, Resume(c))
    ensures Safe(cfg, Resumed(cfg, s, c))
  {
    hide Settled, Reversed, UpTo, HasLimiter, Counted;
    var run := s.runs[c];
    assert c in s.counters.owners <==> Owns(cfg, s, c);
    if run.pending == Accepted {
      var acquired := run.acquired + [|run.acquired|];
      UpToNext(|run.acquired|);
      var after := run.(acquired := acquired, pending := Idle, over := |acquired| == |cfg.hooks|);
      assert PassedLimiter(cfg, after) <==> PassedLimiter(cfg, run);
      OwnersAfter(cfg, s, c, after, s.counters);
    } else {
      var after := run.(pending := Idle, over := true);
      assert PassedLimiter(cfg, after) <==> PassedLimiter(cfg, run);
      OwnersAfter(cfg, s, c, after, s.counters);
      SettledIsSafe(cfg, s.(runs := s.runs[c := after]), c, false);
    }
  }

  lemma UpToNext(n: nat)
    ensures UpTo(n) + [n] == UpTo(n + 1)
  {
  }

  lemma BegunIsSafe(cfg: Config, s: State, c: nat)
    requires Safe(cfg, s) && Enabled(s, Begin(c))
    ensures Safe(cfg, Step(cfg, s, Begin(c)))
  {
    hide HasLimiter, Counted;
    assert c in s.counters.owners <==> Owns(cfg, s, c);
    OwnersAfter(cfg, s, c, Run([], Idle, cfg.hooks == [], false, []), s.counters);
  }

  lemma StepIsSafe(cfg: Config, s: State, e: Event)
    requires LimiterOnce(cfg) && Safe(cfg, s) && Enabled(s, e)
    ensures Safe(cfg, Step(cfg, s, e))
  {
    hide Safe, Settled, Called, Resumed;
    match e {
      case Begin(c) => BegunIsSafe(cfg, s, c);
      case Call(c, accepts) => CalledIsSafe(cfg, s, c, accepts);
      case Resume(c) => ResumedIsSafe(cfg, s, c);
      case PostSuccess(c) => SettledIsSafe(cfg, s, c, true);
      case PostFailure(c) => SettledIsSafe(cfg, s, c, false);
    }
  }

  // ---- Runs --------------------------------------------------------------------------------------------

  /** Any interleaving of fresh contexts; they may be settled at any time. */
  ghost predicate IsRun(cfg: Config, events: seq<Event>)
    decreases |events|, 0
  {
    events == [] ||
    var init, last := events[..|events| - 1], events[|events| - 1];
    IsRun(cfg, init) && Enabled(After(cfg, init), last)
  }

  ghost function After(cfg: Config, events: seq<Event>): State
    requires IsRun(cfg, events)
    decreases |events|, 1
  {
    if events == [] then State(map[], Counters(map[], {}))
    else Step(cfg, After(cfg, events[..|events| - 1]), events[|events| - 1])
  }

  /** A run in which every caller waits for `runPreCall` before it settles a context. */
  ghost predicate Orderly(cfg: Config, events: seq<Event>)
    requires IsRun(cfg, events)
    decreases |events|
  {
    events == [] ||
    var init, last := events[..|events| - 1], events[|events| - 1];
    Orderly(cfg, init) && InOrder(After(cfg, init), last)
  }

  lemma {:induction false} RunIsSafe(cfg: Config, events: seq<Event>)
    requires LimiterOnce(cfg) && IsRun(cfg, events)
    ensures Safe(cfg, After(cfg, events))
    decreases |events|
  {
    if events == [] {
      assert forall key :: OwnersOf(cfg, {}, key) == {};
    } else {
      hide Safe, Step;
      RunIsSafe(cfg, events[..|events| - 1]);
      StepIsSafe(cfg, After(cfg, events[..|events| - 1]), events[|events| - 1]);
    }
  }

  /** A key's counter is the number of its contexts that were counted and whose completion the limiter was not told of. */
  lemma CounterIsOwners(cfg: Config, events: seq<Event>, key: Key)
    requires LimiterOnce(cfg) && IsRun(cfg, events)
    ensures InFlight(After(cfg, events).counters, key)
         == |set c | c in After(cfg, events).runs && Owns(cfg, After(cfg, events), c) && cfg.keyOf(c) == key|
  {
    hide PassedLimiter, HasLimiter, Completed, IsRun, After;
    RunIsSafe(cfg, events);
    var s := After(cfg, events);
    assert (set c | c in s.runs && Owns(cfg, s, c) && cfg.keyOf(c) == key) == OwnersOf(cfg, s.counters.owners, key);
  }

  // ---- Orderly runs ----------------------------------------------------------------------------------------

  /** A settled context is through its preCalls, and all that it acquired has been told. */
  ghost predicate Whole(s: State) {
    forall c :: c in s.runs && s.runs[c].settled ==> s.runs[c].over && |s.runs[c].completions| == |s.runs[c].acquired|
  }

  lemma SettledIsWhole(cfg: Config, s: State, c: nat, succeeded: bool)
    requires Safe(cfg, s) && Whole(s) && (c in s.runs ==> s.runs[c].over)
    ensures Whole(Settled(cfg, s, c, succeeded))
  {
    hide Told, UpTo, Counted, OwnersOwn;
    if c in s.runs && !s.runs[c].settled {
      ReversedAt(s.runs[c].acquired);
    }
  }

  lemma StepIsWhole(cfg: Config, s: State, e: Event)
    requires LimiterOnce(cfg) && Safe(cfg, s) && Whole(s) && Enabled(s, e) && InOrder(s, e)
    ensures Whole(Step(cfg, s, e))
  {
    hide Settled, Counted, PassedLimiter, HasLimiter, OwnersOwn, UpTo;
    match e {
      case Begin(_) =>
      case Call(_, _) =>
      case Resume(c) => ResumedIsWhole(cfg, s, c);
      case PostSuccess(c) => SettledIsWhole(cfg, s, c, true);
      case PostFailure(c) => SettledIsWhole(cfg, s, c, false);
    }
  }

  lemma ResumedIsWhole(cfg: Config, s: State, c: nat)
    requires Safe(cfg, s) && Whole(s) && Enabled(s, Resume(c))
    ensures Whole(Resumed(cfg, s, c))
  {
    hide Told, Reversed, UpTo, PassedLimiter, HasLimiter, Counted;
    var run := s.runs[c];
    assert !run.over && !run.settled;
    if run.pending != Accepted {
      OrderCompletes(run, false);
    }
  }

  lemma {:induction false} OrderlyIsWhole(cfg: Config, events: seq<Event>)
    requires LimiterOnce(cfg) && IsRun(cfg, events) && Orderly(cfg, events)
    ensures Whole(After(cfg, events))
    decreases |events|
  {
    if events != [] {
      hide Safe, Whole, Step, InOrder;
      var init := events[..|events| - 1];
      OrderlyIsWhole(cfg, init);
      RunIsSafe(cfg, init);
      StepIsWhole(cfg, After(cfg, init), events[|events| - 1]);
    }
  }

  /** In an orderly run whoever owns a slot has not settled. */
  lemma OwnersHold(cfg: Config, s: State, c: nat)
    requires Safe(cfg, s) && Whole(s)
    ensures Owns(cfg, s, c) <==> Holds(cfg, s, c)
  {
    hide Told, Reversed, UpTo, HasLimiter, Counted;
    if c in s.runs {
      LimiterAmong(cfg, s.runs[c].completions);
    }
  }

  /** In an orderly run a key's counter is the number of its contexts that were counted and have not settled. */
  lemma CounterIsHolders(cfg: Config, events: seq<Event>, key: Key)
    requires LimiterOnce(cfg) && IsRun(cfg, events) && Orderly(cfg, events)
    ensures InFlight(After(cfg, events).counters, key)
         == |set c | c in After(cfg, events).runs && Holds(cfg, After(cfg, events), c) && cfg.keyOf(c) == key|
  {
    hide Safe, Whole, Owns, Holds, IsRun, After, Orderly;
    RunIsSafe(cfg, events);
    OrderlyIsWhole(cfg, events);
    CounterIsOwners(cfg, events, key);
    var s := After(cfg, events);
    forall c ensures Owns(cfg, s, c) <==> Holds(cfg, s, c) {
      OwnersHold(cfg, s, c);
    }
    assert (set c | c in s.runs && Owns(cfg, s, c) && cfg.keyOf(c) == key) == (set c | c in s.runs && Holds(cfg, s, c) && cfg.keyOf(c) == key);
  }

  /** A limited context is let past the limiter exactly when fewer than its limit are counted, itself included then. */
  lemma AdmittedWithinLimit(cfg: Config, events: seq<Event>, c: nat)
    requires LimiterOnce(cfg) && IsRun(cfg, events) && Enabled(After(cfg, events), Call(c, true))
    requires |After(cfg, events).runs[c].acquired| < |cfg.hooks|
    requires cfg.hooks[|After(cfg, events).runs[c].acquired|].Limiter? && cfg.limitOf(c) > 0
    ensures Step(cfg, After(cfg, events), Call(c, true)).runs[c].pending == Accepted
       <==> InFlight(After(cfg, events).counters, cfg.keyOf(c)) < cfg.limitOf(c)
    ensures Step(cfg, After(cfg, events), Call(c, true)).runs[c].pending == Accepted ==>
              InFlight(Step(cfg, After(cfg, events), Call(c, true)).counters, cfg.keyOf(c)) <= cfg.limitOf(c)
  {
  }

  /**
   Only settling tells hooks, only acquired ones, each at most once; in an orderly run
   every acquired hook is told, and a hook that rejected is not.
   */
  lemma EachHookToldOnce(cfg: Config, events: seq<Event>, c: nat, hook: nat)
    requires LimiterOnce(cfg) && IsRun(cfg, events) && c in After(cfg, events).runs
    ensures var run := After(cfg, events).runs[c];
            && multiset(run.completions)[hook] <= 1
            && (hook in run.completions ==> run.settled && hook < |run.acquired|)
            && (Orderly(cfg, events) ==>
                  multiset(run.completions)[hook] == if run.settled && hook < |run.acquired| then 1 else 0)
  {
    hide UpTo, Reversed, IsRun, After, Orderly, OwnersOwn, Counted;
    RunIsSafe(cfg, events);
    if Orderly(cfg, events) { OrderlyIsWhole(cfg, events); }
    OnceEach(|After(cfg, events).runs[c].completions|, hook);
  }

  lemma {:induction false} OnceEach(n: nat, hook: nat)
    ensures multiset(UpTo(n))[hook] == if hook < n then 1 else 0
    ensures multiset(Reversed(UpTo(n)))[hook] == if hook < n then 1 else 0
  {
    hide UpTo, Reversed;
    if n > 0 {
      OnceEach(n - 1, hook);
      ReversedUpTo(n);
      CountOf(UpTo(n - 1), n - 1, hook);
      assert multiset([n - 1] + Reversed(UpTo(n - 1))) == multiset(Reversed(UpTo(n - 1)) + [n - 1]);
      CountOf(Reversed(UpTo(n - 1)), n - 1, hook);
    } else {
      NoneUpTo();
    }
  }

  lemma NoneUpTo()
    ensures UpTo(0) == [] && Reversed(UpTo(0)) == []
  {
  }

  lemma ReversedUpTo(n: nat)
    requires n > 0
    ensures UpTo(n) == UpTo(n - 1) + [n - 1] && Reversed(UpTo(n)) == [n - 1] + Reversed(UpTo(n - 1))
  {
    assert UpTo(n)[..|UpTo(n)| - 1] == UpTo(n - 1);
  }

  lemma CountOf(s: seq<nat>, x: nat, hook: nat)
    ensures multiset(s + [x])[hook] == multiset(s)[hook] + if x == hook then 1 else 0
  {
  }

  /** The limiter accepts while fewer than the limit are counted, and always without a limit; any other hook as it likes. */
  lemma CallIs(cfg: Config, events: seq<Event>, c: nat, accepts: bool)
    requires LimiterOnce(cfg) && IsRun(cfg, events) && Enabled(After(cfg, events), Call(c, accepts))
    ensures var s := After(cfg, events);
            var run := s.runs[c];
            var limited := |run.acquired| < |cfg.hooks| && cfg.hooks[|run.acquired|].Limiter?;
            var accepted := if limited then cfg.limitOf(c) <= 0 || InFlight(s.counters, cfg.keyOf(c)) < cfg.limitOf(c) else accepts;
            && Step(cfg, s, Call(c, accepts)).runs == s.runs[c := run.(pending := if accepted then Accepted else Rejected)]
            && (forall key :: InFlight(Step(cfg, s, Call(c, accepts)).counters, key)
                           == InFlight(s.counters, key) + if key == cfg.keyOf(c) && limited && accepted && cfg.limitOf(c) > 0 then 1 else 0)
  {
    hide Told, Reversed, UpTo, HasLimiter, Counted, OwnersOwn;
    RunIsSafe(cfg, events);
  }

  /** After an accepting preCall its hook is acquired, and the preCalls end with the last one; a rejecting one ends them. */
  lemma ResumeIs(cfg: Config, events: seq<Event>, c: nat)
    requires LimiterOnce(cfg) && IsRun(cfg, events) && Enabled(After(cfg, events), Resume(c))
    ensures var run, after := After(cfg, events).runs[c], Step(cfg, After(cfg, events), Resume(c)).runs[c];
            && after.pending == Idle
            && |after.acquired| == |run.acquired| + (if run.pending == Accepted then 1 else 0)
            && (after.over <==> run.pending == Rejected || |after.acquired| == |cfg.hooks|)
            && after.settled == (run.settled || run.pending == Rejected)
  {
  }

  /** The event settles the context: it is completed, or its last preCall has rejected. */
  predicate Settles(s: State, e: Event, c: nat) {
    && c in s.runs && !s.runs[c].settled
    && (e == PostSuccess(c) || e == PostFailure(c) || (e == Resume(c) && s.runs[c].pending == Rejected))
  }

  /**
   A success tells the acquired hooks in the order of their preCalls, a failure in
   reverse. Before that a context has told nobody, and afterwards nothing is told again.
   */
  lemma CompletionsAre(cfg: Config, events: seq<Event>, e: Event, c: nat)
    requires LimiterOnce(cfg) && IsRun(cfg, events) && Enabled(After(cfg, events), e) && c in After(cfg, events).runs
    ensures var s, r := After(cfg, events), Step(cfg, After(cfg, events), e);
            var n := |s.runs[c].acquired|;
            && c in r.runs
            && (r.runs[c].settled <==> s.runs[c].settled || Settles(s, e, c))
            && (!s.runs[c].settled ==> s.runs[c].completions == [])
            && (!Settles(s, e, c) ==> r.runs[c].completions == s.runs[c].completions)
            && (Settles(s, e, c) ==> |r.runs[c].completions| == n)
            && (Settles(s, e, c) ==> forall i :: 0 <= i < n ==> r.runs[c].completions[i] == if e.PostSuccess? then i else n - 1 - i)
  {
    hide Settled, UpTo, Reversed, Counted, OwnersOwn, IsRun, After;
    RunIsSafe(cfg, events);
    var s := After(cfg, events);
    match e
    case Begin(_) =>
    case Call(_, _) =>
    case Resume(d) =>
      if s.runs[d].pending == Rejected { SettledTells(cfg, s.(runs := s.runs[d := s.runs[d].(pending := Idle, over := true)]), d, false, c); }
    case PostSuccess(d) => SettledTells(cfg, s, d, true, c);
    case PostFailure(d) => SettledTells(cfg, s, d, false, c);
  }

  lemma SettledTells(cfg: Config, s: State, d: nat, succeeded: bool, c: nat)
    requires c in s.runs && s.runs[c].acquired == UpTo(|s.runs[c].acquired|) && Completed(s.runs[c])
    ensures var run, r := s.runs[c], Settled(cfg, s, d, succeeded);
            var n := |run.acquired|;
            && c in r.runs
            && (if d != c || run.settled then r.runs[c] == run
                else r.runs[c].settled && |r.runs[c].completions| == n
                     && forall i :: 0 <= i < n ==> r.runs[c].completions[i] == if succeeded then i else n - 1 - i)
  {
    hide Told, Reversed, UpTo;
    UpToAt(|s.runs[c].acquired|);
    ReversedAt(s.runs[c].acquired);
  }

  // ---- Settling too early ------------------------------------------------------------------------------------

  /**
   Settling a context for the first time leaves it counted exactly when the limiter
   has counted it and `runPreCall` has not yet noted that: then nobody tells the limiter.
   */
  lemma SettleKeepsSlotIff(cfg: Config, s: State, c: nat, succeeded: bool)
    requires LimiterOnce(cfg) && Safe(cfg, s) && c in s.runs && !s.runs[c].settled && cfg.limitOf(c) > 0
    ensures c in Settled(cfg, s, c, succeeded).counters.owners
       <==> s.runs[c].pending == Accepted && cfg.hooks[|s.runs[c].acquired|].Limiter?
  {
    hide Told, Reversed, UpTo, HasLimiter, Counted;
    var run := s.runs[c];
    OrderCompletes(run, succeeded);
    LimiterAmong(cfg, Order(run, succeeded));
    SettledIsSafe(cfg, s, c, succeeded);
    var r := Settled(cfg, s, c, succeeded);
    assert r.runs[c].completions == Order(run, succeeded);
    assert c in r.counters.owners <==> Owns(cfg, r, c);
  }

  /**
   Settled before the limiter is called, a context is still counted when it is called,
   unless it is refused.
   */
  lemma CountedAfterSettling(cfg: Config, s: State, c: nat, accepts: bool)
    requires LimiterOnce(cfg) && Safe(cfg, s) && Enabled(s, Call(c, accepts)) && s.runs[c].settled && cfg.limitOf(c) > 0
    requires cfg.hooks[|s.runs[c].acquired|].Limiter?
    ensures c !in s.counters.owners
    ensures c in Step(cfg, s, Call(c, accepts)).counters.owners <==> InFlight(s.counters, cfg.keyOf(c)) < cfg.limitOf(c)
  {
    hide HasLimiter, Counted, UpTo, Reversed;
    NotYetPassed(cfg, s.runs[c]);
    assert c in s.counters.owners <==> Owns(cfg, s, c);
  }

  /** A settled context is told nothing more, whatever happens. */
  lemma {:induction false} SettledStays(cfg: Config, events: seq<Event>, n: nat, c: nat)
    requires LimiterOnce(cfg) && IsRun(cfg, events) && n <= |events| && IsRun(cfg, events[..n])
    requires c in After(cfg, events[..n]).runs && After(cfg, events[..n]).runs[c].settled
    ensures c in After(cfg, events).runs && After(cfg, events).runs[c].settled
    ensures c in After(cfg, events[..n]).counters.owners ==> c in After(cfg, events).counters.owners
    decreases |events|
  {
    if n == |events| {
      assert events[..n] == events;
    } else {
      var init := events[..|events| - 1];
      assert init[..n] == events[..n];
      SettledStays(cfg, init, n, c);
      SettledStep(cfg, After(cfg, init), events[|events| - 1], c);
    }
  }

  lemma SettledStep(cfg: Config, s: State, e: Event, c: nat)
    requires Enabled(s, e) && c in s.runs && s.runs[c].settled
    ensures c in Step(cfg, s, e).runs && Step(cfg, s, e).runs[c].settled
    ensures c in s.counters.owners ==> c in Step(cfg, s, e).counters.owners
  {
    hide Told, Reversed;
    var d := e.c;
    if d != c && d in s.runs {
      ToldKeepsOthers(cfg, s.counters, c, d, Order(s.runs[d], true));
      ToldKeepsOthers(cfg, s.counters, c, d, Order(s.runs[d], false));
    }
  }

  lemma {:induction false} ToldKeepsOthers(cfg: Config, k: Counters, c: nat, d: nat, hooks: seq<nat>)
    requires c != d
    ensures c in k.owners ==> c in Told(cfg, k, d, hooks).owners
    decreases |hooks|
  {
    if hooks != [] {
      ToldKeepsOthers(cfg, k, c, d, hooks[..|hooks| - 1]);
    }
  }

  /**
   The slots that are lost: a settled context is counted exactly if it passed the limiter
   and the limiter was not among the hooks told, and then it stays counted for good.
   */
  lemma LostForGoodIff(cfg: Config, events: seq<Event>, n: nat, c: nat)
    requires LimiterOnce(cfg) && IsRun(cfg, events) && n <= |events| && IsRun(cfg, events[..n])
    requires c in After(cfg, events[..n]).runs && After(cfg, events[..n]).runs[c].settled && cfg.limitOf(c) > 0
    ensures var run := After(cfg, events[..n]).runs[c];
            c in After(cfg, events[..n]).counters.owners <==> PassedLimiter(cfg, run) && !HasLimiter(cfg, run.completions)
    ensures c in After(cfg, events[..n]).counters.owners ==> c in After(cfg, events).counters.owners
  {
    hide HasLimiter, PassedLimiter, Counted, UpTo, Reversed, IsRun, After;
    RunIsSafe(cfg, events[..n]);
    SettledStays(cfg, events, n, c);
    assert c in After(cfg, events[..n]).counters.owners <==> Owns(cfg, After(cfg, events[..n]), c);
  }

  /** A context settled before the first `await` of its preCalls is over. */
  const EARLY: seq<Event> := [] + [Begin(0)] + [Call(0, true)] + [PostSuccess(0)]

  lemma EarlySettleLoses(cfg: Config)
    requires cfg.hooks == [Limiter] && cfg.limitOf(0) > 0
    ensures IsRun(cfg, EARLY) && 0 in After(cfg, EARLY).runs
    ensures After(cfg, EARLY).runs[0].settled && 0 in After(cfg, EARLY).counters.owners
  {
    RunSnoc(cfg, [], Begin(0));
    RunSnoc(cfg, [] + [Begin(0)], Call(0, true));
    RunSnoc(cfg, [] + [Begin(0)] + [Call(0, true)], PostSuccess(0));
  }

  lemma RunSnoc(cfg: Config, events: seq<Event>, e: Event)
    requires IsRun(cfg, events) && Enabled(After(cfg, events), e)
    ensures IsRun(cfg, events + [e]) && After(cfg, events + [e]) == Step(cfg, After(cfg, events), e)
  {
    var all := events + [e];
    assert all[..|all| - 1] == events;
  }

  // ---- The registry and the limiter as objects ----------------------------------------------------------

  class Registry {
    const cfg: Config
    var runs: map<nat, Run>
    var inFlight: map<Key, nat>
    var owners: set<nat>

    constructor (cfg: Config)
      ensures this.cfg == cfg && Now() == State(map[], Counters(map[], {}))
    {
      this.cfg, runs, inFlight, owners := cfg, map[], map[], {};
    }

    ghost function Now(): State
      reads this
    {
      State(runs, Counters(inFlight, owners))
    }

    /** `decrement`: a context that owns no slot gives none back. */
    method Decrement(c: nat)
      modifies this
      ensures runs == old(runs) && Now().counters == Decremented(cfg, old(Now()).counters, c)
    {
      if c !in owners { return; }
      owners := owners - {c};
      var key := cfg.keyOf(c);
      var current := if key in inFlight then inFlight[key] else 0;
      if current <= 1 {
        inFlight := inFlight - {key};
      } else {
        inFlight := inFlight[key := current - 1];
      }
    }

    /** The limiter's preCall. */
    method Acquire(c: nat) returns (accepted: bool)
      modifies this
      ensures runs == old(runs) && accepted == !Refuses(cfg, old(Now()).counters, c)
      ensures Now().counters == if accepted then Acquired(cfg, old(Now()).counters, c) else old(Now()).counters
    {
      var limit := cfg.limitOf(c);
      if limit > 0 {
        var key := cfg.keyOf(c);
        var current := if key in inFlight then inFlight[key] else 0;
        if current >= limit { return false; }
        inFlight := inFlight[key := current + 1];
        owners := owners + {c};
      }
      return true;
    }

    method Begin(c: nat)
      requires Enabled(Now(), Event.Begin(c))
      modifies this
      ensures Now() == Step(cfg, old(Now()), Event.Begin(c))
    {
      runs := runs[c := Run([], Idle, cfg.hooks == [], false, [])];
    }

    /** `runPreCall` up to the await of one hook. */
    method Call(c: nat, accepts: bool)
      requires Enabled(Now(), Event.Call(c, accepts))
      modifies this
      ensures Now() == Step(cfg, old(Now()), Event.Call(c, accepts))
    {
      var hook := |runs[c].acquired|;
      var accepted := accepts;
      if hook < |cfg.hooks| && cfg.hooks[hook].Limiter? {
        accepted := Acquire(c);
      }
      runs := runs[c := runs[c].(pending := if accepted then Accepted else Rejected)];
    }

    /** `runPreCall` from that await on. */
    method Resume(c: nat)
      requires Enabled(Now(), Event.Resume(c))
      modifies this
      ensures Now() == Step(cfg, old(Now()), Event.Resume(c))
    {
      var run := runs[c];
      if run.pending == Accepted {
        var acquired := run.acquired + [|run.acquired|];
        runs := runs[c := run.(acquired := acquired, pending := Idle, over := |acquired| == |cfg.hooks|)];
      } else {
        runs := runs[c := run.(pending := Idle, over := true)];
        Post(c, false);
      }
    }

    /** `runPostSuccess` and `runPostFailure`. */
    method Post(c: nat, succeeded: bool)
      modifies this
      ensures Now() == Settled(cfg, old(Now()), c, succeeded)
    {
      hide Order, Decremented;
      if c !in runs || runs[c].settled { return; }
      var run := runs[c];
      var order := Order(run, succeeded);
      runs := runs[c := run.(settled := true)];
      assert run.completions + order[..0] == run.completions;
      for i := 0 to |order|
        invariant runs == old(runs)[c := run.(settled := true, completions := run.completions + order[..i])]
        invariant Now().counters == Told(cfg, old(Now()).counters, c, order[..i])
      {
        assert order[..i + 1][..i] == order[..i];
        assert run.completions + order[..i] + [order[i]] == run.completions + order[..i + 1];
        runs := runs[c := runs[c].(completions := runs[c].completions + [order[i]])];
        if order[i] < |cfg.hooks| && cfg.hooks[order[i]].Limiter? {
          Decrement(c);
        }
      }
      assert order[..|order|] == order;
    }
  }
}
