/**
 Read snapshots: the lifetime that revokes its handle, drains what it accepted
 and then closes iterators and statements, and the scanner that looks for a write
 keyword behind WITH.
 */
module ReadSnapshot {
  import opened Options
  import opened Texts

  // ---- The lifetime, one step per await-free segment ---------------------------------------

  datatype Phase =
    | Idle
    | Running
    | Draining
    | Returning                // the loop over the live iterators
    | Closing                  // the loop over the prepared statements
    | Exited(failed: bool)     // failed: a return() or close() of the cleanup rejected

  /**
   `accepted` and `doomed` together are the `pending` set: calls that passed the
   check and calls whose promise is already rejected. `nexts` says of a next() which
   iterator it advances, `leaving` are the iterators whose wrapper goes to its finally block, `holder` which iterator holds the transaction's
   own gate between two rows. `ending` are the iterators whose wrapper has called
   `return()`, `returned` those whose `return()` has settled, `visited` those the
   cleanup called it on. `reached` counts the checked calls that got through to the
   transaction, `bypassed` the unchecked uses of a statement.
   */
  datatype Lifetime = Lifetime(
    phase: Phase, aborted: bool, active: bool,
    accepted: set<nat>, doomed: set<nat>, nexts: map<nat, nat>, leaving: set<nat>, holder: Option<nat>,
    statements: set<nat>, closed: set<nat>,
    iterators: set<nat>, started: set<nat>, ending: set<nat>, returned: set<nat>, visited: set<nat>,
    reached: nat, bypassed: nat)

  const START := Lifetime(Idle, false, true, {}, {}, map[], {}, None, {}, {}, {}, {}, {}, {}, {}, 0, 0)

  /** What `check` tests. */
  predicate Open(l: Lifetime) {
    l.active && !l.aborted
  }

  datatype Step =
    | Abort                                    // the caller's signal or the timeout
    | Start                                    // run() begins
    | Leave                                    // the callback ends, or the abort wins the race
    | Call(op: nat)                            // any tracked call but next()
    | Settle(op: nat)
    | SettlePrepare(op: nat, statement: nat)   // an accepted prepare succeeds
    | SettleNext(op: nat, row: bool)           // an accepted next() yields a row or the end
    | SettleDoomed(op: nat)
    | Bypass(statement: nat)                   // an unchecked use: iterate(..), before any next(), or `reader`
    | CloseByCaller(statement: nat, cancels: bool)   // cancels: its suspended iterator held the gate
    | OpenIterator(it: nat, op: nat)           // the first next() of a wrapped iterator
    | Advance(it: nat, op: nat)                // a later next()
    | EndIterator(it: nat)                     // the wrapper's own finally block calls return()
    | EndSettles(it: nat)
    | Drained
    | ReturnOne(it: nat, ok: bool)
    | ReturnedAll
    | CloseOne(statement: nat, ok: bool)
    | ClosedAll

  predicate Unused(l: Lifetime, op: nat) {
    op !in l.accepted && op !in l.doomed && op !in l.nexts
  }

  /** The transaction's gate is free for an accepted call, or its own iterator holds it. */
  predicate GateFree(l: Lifetime, op: nat) {
    l.holder == None || (op in l.nexts && l.holder == Some(l.nexts[op]))
  }

  /** The wrapper waits for a next() it has called. */
  predicate Awaits(l: Lifetime, it: nat) {
    exists op :: op in l.nexts && l.nexts[op] == it && (op in l.accepted || op in l.doomed)
  }

  predicate Enabled(l: Lifetime, s: Step) {
    match s
    case Abort => true
    case Start => l.phase == Idle
    case Leave => l.phase == Running
    case Call(op) => l.phase != Idle && Unused(l, op)
    case Settle(op) => op in l.accepted && op !in l.nexts && GateFree(l, op)
    case SettlePrepare(op, st) => op in l.accepted && op !in l.nexts && GateFree(l, op) && st !in l.statements
    case SettleNext(op, _) => op in l.accepted && op in l.nexts && GateFree(l, op)
    case SettleDoomed(op) => op in l.doomed
    case Bypass(st) => st in l.statements
    case CloseByCaller(st, _) => st in l.statements
    case OpenIterator(it, op) =>
      l.phase != Idle && Unused(l, op) && it !in l.iterators && it !in l.started
      && it !in l.leaving && it !in l.ending && it !in l.returned
    case Advance(it, op) => it in l.iterators && Unused(l, op) && !Awaits(l, it) && it !in l.leaving
    case EndIterator(it) => it in l.iterators && !Awaits(l, it)
    case EndSettles(it) => it in l.ending
    case Drained => l.phase == Draining && l.accepted == {} && l.doomed == {}
    case ReturnOne(it, _) => l.phase == Returning && it in l.iterators && it !in l.visited
    case ReturnedAll => l.phase == Returning && l.iterators <= l.visited
    case CloseOne(st, _) => l.phase == Closing && st in l.statements && st !in l.closed
    case ClosedAll => l.phase == Closing && l.statements <= l.closed
  }

  /** `track`: the check decides whether the work runs at all. */
  function Track(l: Lifetime, op: nat): Lifetime {
    if Open(l) then l.(accepted := l.accepted + {op}, reached := l.reached + 1)
    else l.(doomed := l.doomed + {op})
  }

  /** A tracked next() of an iterator. */
  function TrackNext(l: Lifetime, it: nat, op: nat): Lifetime {
    Track(l, op).(nexts := l.nexts[op := it])
  }

  /** A generator that has ended lets go of the gate. */
  function LetGo(l: Lifetime, it: nat): Option<nat> {
    if l.holder == Some(it) then None else l.holder
  }

  function Next(l: Lifetime, s: Step): Lifetime
    requires Enabled(l, s)
  {
    match s
    case Abort => l.(aborted := true)
    case Start => if Open(l) then l.(phase := Running) else l.(phase := Draining, active := false)
    case Leave => l.(phase := Draining, active := false)
    case Call(op) => Track(l, op)
    case Settle(op) => l.(accepted := l.accepted - {op})
    case SettlePrepare(op, st) => l.(accepted := l.accepted - {op}, statements := l.statements + {st})
    case SettleNext(op, row) =>
      l.(accepted := l.accepted - {op}, holder := if row then Some(l.nexts[op]) else None,
         leaving := if row && Open(l) then l.leaving else l.leaving + {l.nexts[op]})
    case SettleDoomed(op) =>
      l.(doomed := l.doomed - {op}, leaving := if op in l.nexts then l.leaving + {l.nexts[op]} else l.leaving)
    case Bypass(st) => l.(bypassed := if st in l.closed then l.bypassed else l.bypassed + 1)
    case CloseByCaller(st, cancels) =>
      if Open(l) then l.(closed := l.closed + {st}, holder := if cancels then None else l.holder) else l
    case OpenIterator(it, op) =>
      TrackNext(l.(iterators := l.iterators + {it}, started := if Open(l) then l.started + {it} else l.started), it, op)
    case Advance(it, op) => TrackNext(l, it, op)
    case EndIterator(it) => l.(iterators := l.iterators - {it}, leaving := l.leaving - {it}, ending := l.ending + {it})
    case EndSettles(it) => l.(ending := l.ending - {it}, returned := l.returned + {it}, holder := LetGo(l, it))
    case Drained => l.(phase := Returning)
    case ReturnOne(it, ok) =>
      l.(visited := l.visited + {it}, returned := l.returned + {it}, holder := LetGo(l, it),
         phase := if ok then Returning else Exited(true))
    case ReturnedAll => l.(phase := Closing)
    case CloseOne(st, ok) =>
      l.(closed := l.closed + {st}, phase := if ok then Closing else Exited(true))
    case ClosedAll => l.(phase := Exited(false))
  }

  predicate IsRun(l: Lifetime, steps: seq<Step>)
    decreases |steps|
  {
    steps == [] || (Enabled(l, steps[0]) && IsRun(Next(l, steps[0]), steps[1..]))
  }

  function After(l: Lifetime, steps: seq<Step>): Lifetime
    requires IsRun(l, steps)
    decreases |steps|
  {
    if steps == [] then l else After(Next(l, steps[0]), steps[1..])
  }

  lemma {:induction false} RunAppends(l: Lifetime, a: seq<Step>, b: seq<Step>)
    requires IsRun(l, a) && IsRun(After(l, a), b)
    ensures IsRun(l, a + b) && After(l, a + b) == After(After(l, a), b)
    decreases |a|
  {
    if a == [] {
      assert a + b == b;
    } else {
      assert (a + b)[0] == a[0] && (a + b)[1..] == a[1..] + b;
      RunAppends(Next(l, a[0]), a[1..], b);
    }
  }

  lemma RunSnoc(l: Lifetime, steps: seq<Step>, s: Step)
    requires IsRun(l, steps) && Enabled(After(l, steps), s)
    ensures IsRun(l, steps + [s]) && After(l, steps + [s]) == Next(After(l, steps), s)
  {
    var l' := After(l, steps);
    assert [s][1..] == [];
    assert IsRun(Next(l', s), []);
    assert IsRun(l', [s]) && After(l', [s]) == Next(l', s);
    RunAppends(l, steps, [s]);
  }

  ghost predicate Inv(l: Lifetime) {
    && (l.phase == Idle || l.phase == Running || !l.active)
    && (l.phase == Idle ==> l.accepted == {} && l.iterators == {} && l.statements == {})
    && (l.phase == Returning || l.phase == Closing || l.phase.Exited? ==> l.accepted == {})
    && l.started <= l.iterators + l.ending + l.returned
    && l.visited <= l.returned
    && l.iterators * (l.ending + l.returned) <= l.visited
    && (l.phase == Closing || l.phase == Exited(false) ==> l.started <= l.ending + l.returned)
    && (l.phase == Exited(false) ==> l.statements <= l.closed)
    && l.closed <= l.statements
  }

  lemma StepKeepsInv(l: Lifetime, s: Step)
    requires Inv(l) && Enabled(l, s)
    ensures Inv(Next(l, s))
  {
  }

  lemma {:induction false} RunKeepsInv(l: Lifetime, steps: seq<Step>)
    requires Inv(l) && IsRun(l, steps)
    ensures Inv(After(l, steps))
    decreases |steps|
  {
    if steps != [] {
      StepKeepsInv(l, steps[0]);
      RunKeepsInv(Next(l, steps[0]), steps[1..]);
    }
  }

  // ---- What the exit leaves behind ---------------------------------------------------------

  /** Everything the snapshot took from the transaction has been given back. */
  predicate Released(l: Lifetime) {
    l.accepted == {} && l.started <= l.returned && l.statements <= l.closed
  }

  /** The steps with which run() settles. */
  predicate IsExit(s: Step) {
    s == ClosedAll || (s.ReturnOne? && !s.ok) || (s.CloseOne? && !s.ok)
  }

  /**
   When the exit has released everything: no wrapper's own `return()` is still under
   way, and the cleanup ran through, or what rejected was its very last piece of work.
   */
  predicate CleanExit(l: Lifetime, s: Step) {
    && l.started * l.ending <= l.returned + (if s.ReturnOne? then {s.it} else {})
    && (s.ReturnOne? ==> l.statements <= l.closed && l.started * l.iterators <= l.visited + {s.it})
    && (s.CloseOne? ==> l.statements <= l.closed + {s.statement})
  }

  /**
   However run() exits, the handle is closed and no accepted operation is pending;
   everything is released exactly when the exit is clean.
   */
  lemma ExitReleasesIff(steps: seq<Step>, s: Step)
    requires IsRun(START, steps) && Enabled(After(START, steps), s) && IsExit(s)
    ensures var l := Next(After(START, steps), s);
            l.phase.Exited? && l.accepted == {} && !Open(l) && (Released(l) <==> CleanExit(After(START, steps), s))
  {
    RunKeepsInv(START, steps);
    var l := After(START, steps);
    StepKeepsInv(l, s);
  }

  /** run() settles with these steps only. */
  lemma OnlyTheseExit(l: Lifetime, s: Step)
    requires Enabled(l, s) && !l.phase.Exited?
    ensures Next(l, s).phase.Exited? <==> IsExit(s)
    ensures Next(l, s).phase == Exited(false) <==> s == ClosedAll
  {
  }

  /** If no return() or close() of the cleanup rejects, only a wrapper's own unsettled return() is outstanding. */
  lemma OrderlyExit(steps: seq<Step>)
    requires IsRun(START, steps) && After(START, steps).phase == Exited(false)
    ensures var l := After(START, steps);
            && l.accepted == {} && l.statements <= l.closed && l.started <= l.returned + l.ending
            && (l.ending == {} ==> Released(l))
  {
    RunKeepsInv(START, steps);
  }

  /** run() has settled: the cleanup returns no iterator and closes no statement any more. */
  lemma {:induction false} ExitIsFinal(l: Lifetime, steps: seq<Step>)
    requires l.phase.Exited? && !Open(l) && IsRun(l, steps)
    ensures After(l, steps).phase == l.phase
    ensures After(l, steps).closed == l.closed && After(l, steps).visited == l.visited
    ensures l.statements <= After(l, steps).statements
    decreases |steps|
  {
    if steps != [] {
      ExitIsFinal(Next(l, steps[0]), steps[1..]);
    }
  }

  /**
   A rejecting return() is the end of the cleanup: every statement that the callback
   has not closed itself stays open for good, and no other live iterator is returned.
   */
  lemma RejectingReturnLeaks(l: Lifetime, it: nat, steps: seq<Step>)
    requires Inv(l) && Enabled(l, ReturnOne(it, false))
    requires IsRun(Next(l, ReturnOne(it, false)), steps)
    ensures var l' := After(Next(l, ReturnOne(it, false)), steps);
            l'.phase == Exited(true) && l'.closed == l.closed && l.statements <= l'.statements && l'.visited == l.visited + {it}
  {
    ExitIsFinal(Next(l, ReturnOne(it, false)), steps);
  }

  /** A rejecting close() leaves every statement open that neither the callback nor the loop had closed. */
  lemma RejectingCloseLeaks(l: Lifetime, statement: nat, steps: seq<Step>)
    requires Inv(l) && Enabled(l, CloseOne(statement, false))
    requires IsRun(Next(l, CloseOne(statement, false)), steps)
    ensures var l' := After(Next(l, CloseOne(statement, false)), steps);
            l'.phase == Exited(true) && l'.closed == l.closed + {statement} && l.statements <= l'.statements
  {
    ExitIsFinal(Next(l, CloseOne(statement, false)), steps);
  }

  /** A statement is prepared. */
  const PREPARING: seq<Step> := [] + [Start] + [Call(0)] + [SettlePrepare(0, 7)]

  const PREPARED := START.(phase := Running, statements := {7}, reached := 1)

  /** It is iterated by one row. */
  const ONE_ROW: seq<Step> := PREPARING + [OpenIterator(1, 2)] + [SettleNext(2, true)]

  const ROW_READ := PREPARED.(nexts := map[2 := 1], holder := Some(1), iterators := {1}, started := {1}, reached := 2)

  /** The callback leaves the iterator live, and the cleanup comes to it. */
  const LEFT_LIVE: seq<Step> := ONE_ROW + [Leave] + [Drained]

  lemma PreparingRuns()
    ensures IsRun(START, PREPARING) && After(START, PREPARING) == PREPARED
  {
    RunSnoc(START, [], Start);
    RunSnoc(START, [] + [Start], Call(0));
    RunSnoc(START, [] + [Start] + [Call(0)], SettlePrepare(0, 7));
  }

  lemma OneRowRuns()
    ensures IsRun(START, ONE_ROW) && After(START, ONE_ROW) == ROW_READ
  {
    hide IsRun, After;
    PreparingRuns();
    RunSnoc(START, PREPARING, OpenIterator(1, 2));
    RunSnoc(START, PREPARING + [OpenIterator(1, 2)], SettleNext(2, true));
  }

  lemma LeftLiveRuns()
    ensures IsRun(START, LEFT_LIVE) && After(START, LEFT_LIVE) == ROW_READ.(phase := Returning, active := false)
  {
    hide IsRun, After;
    OneRowRuns();
    RunSnoc(START, ONE_ROW, Leave);
    RunSnoc(START, ONE_ROW + [Leave], Drained);
  }

  /** Such a run, and a return() that then rejects: the statement is never closed. */
  lemma FailingExit()
    ensures IsRun(START, LEFT_LIVE) && Enabled(After(START, LEFT_LIVE), ReturnOne(1, false))
    ensures !Released(Next(After(START, LEFT_LIVE), ReturnOne(1, false)))
  {
    hide IsRun, After;
    LeftLiveRuns();
  }

  // ---- Revocation ----------------------------------------------------------------------------

  /**
   Revocation is final for what is checked: once the handle is closed to callers, by
   an abort or by the end of the callback, no tracked call and no next() gets through
   to the transaction.
   */
  lemma {:induction false} RevokedForGood(l: Lifetime, steps: seq<Step>)
    requires Inv(l) && IsRun(l, steps) && !Open(l)
    ensures !Open(After(l, steps))
    ensures After(l, steps).reached == l.reached
    ensures After(l, steps).accepted <= l.accepted
    decreases |steps|
  {
    if steps != [] {
      StepKeepsInv(l, steps[0]);
      RevokedForGood(Next(l, steps[0]), steps[1..]);
    }
  }

  predicate Revokes(s: Step) {
    s == Abort || s == Leave
  }

  /** What has been prepared, closed, opened, started and returned in a run, and how many checked calls got through. */
  datatype Deeds = Deeds(prepared: set<nat>, closed: set<nat>, begun: set<nat>, started: set<nat>,
                         returned: set<nat>, visited: set<nat>, reached: nat)

  const NOTHING := Deeds({}, {}, {}, {}, {}, {}, 0)

  /** Of one step; what is checked counts only while the handle is open. */
  function Deed(s: Step, open: bool): Deeds {
    match s
    case SettlePrepare(_, st) => NOTHING.(prepared := {st})
    case CloseByCaller(st, _) => if open then NOTHING.(closed := {st}) else NOTHING
    case CloseOne(st, _) => NOTHING.(closed := {st})
    case Call(_) => if open then NOTHING.(reached := 1) else NOTHING
    case Advance(_, _) => if open then NOTHING.(reached := 1) else NOTHING
    case OpenIterator(it, _) => if open then NOTHING.(begun := {it}, started := {it}, reached := 1) else NOTHING.(begun := {it})
    case EndSettles(it) => NOTHING.(returned := {it})
    case ReturnOne(it, _) => NOTHING.(returned := {it}, visited := {it})
    case _ => NOTHING
  }

  function Added(d: Deeds, e: Deeds): Deeds {
    Deeds(d.prepared + e.prepared, d.closed + e.closed, d.begun + e.begun, d.started + e.started, d.returned + e.returned,
          d.visited + e.visited, d.reached + e.reached)
  }

  /** Told from the steps alone: the handle is open until the first abort or end of the callback. */
  function DeedsOf(steps: seq<Step>, open: bool): Deeds {
    if steps == [] then NOTHING else Added(Deed(steps[0], open), DeedsOf(steps[1..], open && !Revokes(steps[0])))
  }

  /** The handle is as its deeds say that came on top of these. */
  predicate Bears(before: Lifetime, after: Lifetime, d: Deeds) {
    && after.statements == before.statements + d.prepared
    && after.closed == before.closed + d.closed
    && after.iterators + after.ending + after.returned == before.iterators + before.ending + before.returned + d.begun
    && after.started == before.started + d.started
    && after.returned == before.returned + d.returned
    && after.visited == before.visited + d.visited
    && after.reached == before.reached + d.reached
  }

  /** Over every run: the handle is open exactly until an abort or the end of the callback, and its books are what the steps say. */
  lemma {:induction false} DeedsAre(l: Lifetime, steps: seq<Step>)
    requires IsRun(l, steps)
    ensures Open(After(l, steps)) <==> Open(l) && forall s :: s in steps ==> !Revokes(s)
    ensures Bears(l, After(l, steps), DeedsOf(steps, Open(l)))
    decreases |steps|
  {
    if steps != [] {
      var next := Next(l, steps[0]);
      DeedsAre(next, steps[1..]);
      assert forall s :: s in steps <==> s == steps[0] || s in steps[1..];
      StepRevokes(l, steps[0]);
      StepIsDeed(l, steps[0]);
      DeedsAdd(l, next, After(l, steps), Deed(steps[0], Open(l)), DeedsOf(steps[1..], Open(next)));
    }
  }

  lemma StepRevokes(l: Lifetime, s: Step)
    requires Enabled(l, s)
    ensures Open(Next(l, s)) <==> Open(l) && !Revokes(s)
  {
  }

  lemma CheckedIsDeed(l: Lifetime, s: Step)
    requires Enabled(l, s) && (s.Call? || s.Advance? || s.OpenIterator?)
    ensures Bears(l, Next(l, s), Deed(s, Open(l)))
  {
    hide Enabled;
  }

  lemma EndIsDeed(l: Lifetime, s: Step)
    requires Enabled(l, s) && (s.EndIterator? || s.EndSettles? || s.ReturnOne? || s.CloseByCaller? || s.CloseOne?)
    ensures Bears(l, Next(l, s), Deed(s, Open(l)))
  {
  }

  lemma StepIsDeed(l: Lifetime, s: Step)
    requires Enabled(l, s)
    ensures Bears(l, Next(l, s), Deed(s, Open(l)))
  {
    if s.Call? || s.Advance? || s.OpenIterator? {
      CheckedIsDeed(l, s);
    } else if s.EndIterator? || s.EndSettles? || s.ReturnOne? || s.CloseByCaller? || s.CloseOne? {
      EndIsDeed(l, s);
    } else {
      hide Enabled;
    }
  }

  lemma DeedsAdd(a: Lifetime, b: Lifetime, c: Lifetime, d: Deeds, e: Deeds)
    requires Bears(a, b, d) && Bears(b, c, e)
    ensures Bears(a, c, Added(d, e))
  {
  }

  /** Somewhere along the run there is such a use of a prepared statement that is not closed yet. */
  predicate Bypasses(l: Lifetime, steps: seq<Step>)
    requires IsRun(l, steps)
    decreases |steps|
  {
    steps != [] &&
    ((steps[0].Bypass? && steps[0].statement !in l.closed) || Bypasses(Next(l, steps[0]), steps[1..]))
  }

  /** Of a revoked handle, exactly those uses still get through to the transaction. */
  lemma {:induction false} RevokedButForBypass(l: Lifetime, steps: seq<Step>)
    requires Inv(l) && IsRun(l, steps) && !Open(l)
    ensures After(l, steps).reached == l.reached && After(l, steps).bypassed >= l.bypassed
    ensures After(l, steps).bypassed > l.bypassed <==> Bypasses(l, steps)
    decreases |steps|
  {
    if steps != [] {
      StepKeepsInv(l, steps[0]);
      RevokedButForBypass(Next(l, steps[0]), steps[1..]);
    }
  }

  /** After an orderly exit every statement is closed, and nothing gets through at all. */
  lemma {:induction false} SealedAfterExit(l: Lifetime, steps: seq<Step>)
    requires Inv(l) && l.phase == Exited(false) && IsRun(l, steps)
    ensures !Bypasses(l, steps)
    ensures After(l, steps).reached == l.reached && After(l, steps).bypassed == l.bypassed
    decreases |steps|
  {
    if steps != [] {
      StepKeepsInv(l, steps[0]);
      SealedAfterExit(Next(l, steps[0]), steps[1..]);
    }
  }

  /** A run in which the handle is revoked and such a use then gets through. */
  lemma BypassAfterRevocation()
    ensures IsRun(START, LEFT_LIVE) && !Open(After(START, LEFT_LIVE)) && Enabled(After(START, LEFT_LIVE), Bypass(7))
    ensures Next(After(START, LEFT_LIVE), Bypass(7)).bypassed > After(START, LEFT_LIVE).bypassed
  {
    hide IsRun, After;
    LeftLiveRuns();
  }

  // ---- When the drain ends ----------------------------------------------------------------------

  /** The accepted call is a next() of this iterator. */
  predicate Advances(l: Lifetime, op: nat, it: nat) {
    op in l.nexts && l.nexts[op] == it
  }

  /** A call waits for the gate, and the iterator that holds it is suspended between two rows. */
  predicate Stuck(l: Lifetime) {
    l.holder.Some? && l.accepted != {} && forall op :: op in l.accepted ==> !Advances(l, op, l.holder.value)
  }

  /** Nobody ends the iterator: its wrapper's consumer does not. */
  predicate NeverEnds(steps: seq<Step>, it: nat) {
    forall i :: 0 <= i < |steps| ==> steps[i] != EndIterator(it)
  }

  /**
   A drain that is stuck waits until somebody ends the suspended iterator: the cleanup
   would, but only after the drain, and an abort does not.
   */
  lemma {:induction false} DrainHangs(l: Lifetime, steps: seq<Step>)
    requires l.phase == Draining && !l.active && Stuck(l) && l.holder.value !in l.ending
    requires IsRun(l, steps) && NeverEnds(steps, l.holder.value)
    ensures After(l, steps).phase == Draining && Stuck(After(l, steps)) && After(l, steps).accepted == l.accepted
    decreases |steps|
  {
    if steps != [] {
      assert steps[0] != EndIterator(l.holder.value);
      forall i | 0 <= i < |steps[1..]| ensures steps[1..][i] != EndIterator(l.holder.value) {
        var j := i + 1;
        assert steps[1..][i] == steps[j];
      }
      DrainHangs(Next(l, steps[0]), steps[1..]);
    }
  }

  /**
   What the drain does of itself: promises settle, and a wrapper that gets a row or an
   error of a revoked handle, or no more rows, goes through its finally block.
   */
  predicate OfItself(l: Lifetime, s: Step) {
    || s.Settle? || s.SettlePrepare? || s.SettleNext? || s.SettleDoomed? || s.EndSettles? || s == Drained
    || (s.EndIterator? && s.it in l.leaving)
  }

  /** A run of the drain by itself. */
  predicate IsDrain(l: Lifetime, steps: seq<Step>)
    decreases |steps|
  {
    steps != [] ==>
      l.phase == Draining && OfItself(l, steps[0]) && Enabled(l, steps[0]) && IsDrain(Next(l, steps[0]), steps[1..])
  }

  function AfterDrain(l: Lifetime, steps: seq<Step>): Lifetime
    requires IsDrain(l, steps)
    decreases |steps|
  {
    if steps == [] then l else AfterDrain(Next(l, steps[0]), steps[1..])
  }

  ghost predicate AtRest(l: Lifetime) {
    l.phase != Draining || forall s :: OfItself(l, s) ==> !Enabled(l, s)
  }

  /** How many steps the drain can make of itself. */
  function Work(l: Lifetime): nat {
    3 * |l.accepted| + 3 * |l.doomed| + 2 * |l.leaving| + |l.ending| + if l.phase == Draining then 1 else 0
  }

  /** Whatever rows there are, the drain gets to the loop over the iterators after so many steps. */
  ghost predicate MustEnd(l: Lifetime) {
    forall steps :: IsDrain(l, steps) ==>
      |steps| <= Work(l) && (AtRest(AfterDrain(l, steps)) ==> AfterDrain(l, steps).phase == Returning)
  }

  /** The gate is held by an iterator whose wrapper is not on its way to give it back. */
  ghost predicate Stranded(l: Lifetime) {
    Stuck(l) && l.holder.value !in l.ending && l.holder.value !in l.leaving && !Awaits(l, l.holder.value)
  }

  predicate IsPending(l: Lifetime, op: nat) {
    op in l.accepted || op in l.doomed
  }

  /** A wrapper waits for one next() at a time, before its finally block; who holds the gate is live or being returned. */
  ghost predicate Waits(l: Lifetime) {
    AwaitsLive(l) && OneNext(l) && l.accepted !! l.doomed && (l.holder.Some? ==> l.holder.value in l.iterators + l.ending)
  }

  ghost predicate AwaitsLive(l: Lifetime) {
    forall op :: op in l.nexts && IsPending(l, op) ==> l.nexts[op] in l.iterators && l.nexts[op] !in l.leaving
  }

  ghost predicate OneNext(l: Lifetime) {
    forall op, other :: op in l.nexts && other in l.nexts && IsPending(l, op) && IsPending(l, other) ==>
      l.nexts[op] == l.nexts[other] ==> op == other
  }

  lemma StepKeepsLive(l: Lifetime, s: Step)
    requires Waits(l) && Enabled(l, s)
    ensures AwaitsLive(Next(l, s))
  {
  }

  lemma StepKeepsOneNext(l: Lifetime, s: Step)
    requires OneNext(l) && AwaitsLive(l) && Enabled(l, s)
    ensures OneNext(Next(l, s))
  {
  }

  lemma StepKeepsWaits(l: Lifetime, s: Step)
    requires Waits(l) && Enabled(l, s)
    ensures Waits(Next(l, s))
  {
    StepKeepsLive(l, s);
    StepKeepsOneNext(l, s);
    hide OneNext;
  }

  lemma {:induction false} RunKeepsWaits(l: Lifetime, steps: seq<Step>)
    requires Waits(l) && IsRun(l, steps)
    ensures Waits(After(l, steps))
    decreases |steps|
  {
    if steps != [] {
      StepKeepsWaits(l, steps[0]);
      RunKeepsWaits(Next(l, steps[0]), steps[1..]);
    }
  }

  lemma Sizes(s: set<nat>, x: nat)
    ensures |s - {x}| == |s| - (if x in s then 1 else 0) && |s + {x}| <= |s| + 1
  {
    if x !in s { assert s - {x} == s; } else { assert s + {x} == s; }
  }

  lemma SettlingShrinks(l: Lifetime, op: nat, row: bool)
    requires l.phase == Draining && Enabled(l, SettleNext(op, row))
    ensures Work(Next(l, SettleNext(op, row))) < Work(l)
  {
    var n := Next(l, SettleNext(op, row));
    Sizes(l.accepted, op);
    Sizes(l.leaving, l.nexts[op]);
    assert n.accepted == l.accepted - {op} && n.doomed == l.doomed && n.ending == l.ending;
    assert n.leaving == l.leaving || n.leaving == l.leaving + {l.nexts[op]};
  }

  lemma DoomShrinks(l: Lifetime, op: nat)
    requires l.phase == Draining && Enabled(l, SettleDoomed(op))
    ensures Work(Next(l, SettleDoomed(op))) < Work(l)
  {
    Sizes(l.doomed, op);
    if op in l.nexts { Sizes(l.leaving, l.nexts[op]); }
  }

  lemma LeavingShrinks(l: Lifetime, it: nat)
    requires l.phase == Draining && it in l.leaving && Enabled(l, EndIterator(it))
    ensures Work(Next(l, EndIterator(it))) < Work(l)
  {
    Sizes(l.leaving, it);
    Sizes(l.ending, it);
  }

  lemma WorkShrinks(l: Lifetime, s: Step)
    requires l.phase == Draining && OfItself(l, s) && Enabled(l, s)
    ensures Work(Next(l, s)) < Work(l)
  {
    match s
    case Settle(op) => Sizes(l.accepted, op);
    case SettlePrepare(op, _) => Sizes(l.accepted, op);
    case SettleNext(op, row) => SettlingShrinks(l, op, row);
    case SettleDoomed(op) => DoomShrinks(l, op);
    case EndIterator(it) => LeavingShrinks(l, it);
    case EndSettles(it) => Sizes(l.ending, it);
    case Drained =>
  }

  /** At rest nothing can settle that the gate lets settle. */
  lemma RestIsBlocked(l: Lifetime, op: nat)
    requires l.phase == Draining && AtRest(l)
    ensures op in l.accepted ==> l.holder.Some? && !Advances(l, op, l.holder.value)
    ensures op !in l.doomed && (l.accepted != {} || l.doomed != {})
  {
    var s := if op in l.nexts then SettleNext(op, false) else Settle(op);
    assert OfItself(l, s);
    assert OfItself(l, SettleDoomed(op)) && OfItself(l, Drained);
  }

  /** Only an iterator that is stranded, with a call waiting behind it, brings the drain to rest. */
  lemma RestIsStranded(l: Lifetime)
    requires Waits(l) && l.phase == Draining && AtRest(l)
    ensures Stranded(l)
  {
    forall op: nat ensures op !in l.doomed && (op in l.accepted ==> l.holder.Some? && !Advances(l, op, l.holder.value)) {
      RestIsBlocked(l, op);
    }
    RestIsBlocked(l, 0);
    var op :| op in l.accepted;
    var h := l.holder.value;
    assert !Awaits(l, h);
    assert OfItself(l, EndSettles(h)) && (h in l.leaving ==> OfItself(l, EndIterator(h)));
  }

  /** A drain that is not stranded stays so of itself. */
  lemma StaysFree(l: Lifetime, s: Step)
    requires Waits(l) && l.phase == Draining && !l.active && OfItself(l, s) && Enabled(l, s) && !Stranded(l)
    ensures !Stranded(Next(l, s))
  {
  }

  lemma StaysStranded(l: Lifetime, s: Step)
    requires Waits(l) && l.phase == Draining && OfItself(l, s) && Enabled(l, s) && Stranded(l)
    ensures Stranded(Next(l, s)) && Next(l, s).phase == Draining
  {
  }

  lemma {:induction false} FreeDrainEnds(l: Lifetime, steps: seq<Step>)
    requires Waits(l) && !l.active && (l.phase == Draining || l.phase == Returning) && !Stranded(l) && IsDrain(l, steps)
    ensures |steps| <= Work(l) && (AtRest(AfterDrain(l, steps)) ==> AfterDrain(l, steps).phase == Returning)
    decreases |steps|
  {
    if steps == [] {
      if l.phase == Draining && AtRest(l) { RestIsStranded(l); }
    } else {
      WorkShrinks(l, steps[0]);
      StepKeepsWaits(l, steps[0]);
      StaysFree(l, steps[0]);
      FreeDrainEnds(Next(l, steps[0]), steps[1..]);
    }
  }

  lemma {:induction false} StrandedDrainRests(l: Lifetime) returns (steps: seq<Step>)
    requires Waits(l) && l.phase == Draining && Stranded(l)
    ensures IsDrain(l, steps) && AtRest(AfterDrain(l, steps)) && AfterDrain(l, steps).phase == Draining
    decreases Work(l)
  {
    if AtRest(l) {
      steps := [];
    } else {
      var s :| OfItself(l, s) && Enabled(l, s);
      WorkShrinks(l, s);
      StepKeepsWaits(l, s);
      StaysStranded(l, s);
      var rest := StrandedDrainRests(Next(l, s));
      steps := [s] + rest;
      assert steps[1..] == rest;
    }
  }

  /**
   The drain ends, whatever rows there are, exactly if no call waits for the gate behind
   an iterator that stands at a row and is neither awaited nor on its way out.
   */
  lemma DrainEndsIff(steps: seq<Step>)
    requires IsRun(START, steps) && After(START, steps).phase == Draining
    ensures MustEnd(After(START, steps)) <==> !Stranded(After(START, steps))
  {
    RunKeepsInv(START, steps);
    RunKeepsWaits(START, steps);
    var l := After(START, steps);
    if Stranded(l) {
      var rest := StrandedDrainRests(l);
    } else {
      forall rest | IsDrain(l, rest)
        ensures |rest| <= Work(l) && (AtRest(AfterDrain(l, rest)) ==> AfterDrain(l, rest).phase == Returning)
      {
        FreeDrainEnds(l, rest);
      }
    }
  }

  /** A run that hangs: a query is issued while an iterator stands at a row, and the caller aborts. */
  lemma AbortedRunHangs()
    ensures IsRun(START, ONE_ROW + [Call(3)] + [Abort] + [Leave])
    ensures var l := After(START, ONE_ROW + [Call(3)] + [Abort] + [Leave]);
            l.phase == Draining && !l.active && Stuck(l) && l.holder == Some(1) && 1 !in l.ending && !MustEnd(l)
  {
    hide IsRun, After;
    OneRowRuns();
    RunSnoc(START, ONE_ROW, Call(3));
    RunSnoc(START, ONE_ROW + [Call(3)], Abort);
    RunSnoc(START, ONE_ROW + [Call(3)] + [Abort], Leave);
    DrainEndsIff(ONE_ROW + [Call(3)] + [Abort] + [Leave]);
  }

  class SnapshotLifetime {
    var phase: Phase
    var aborted: bool
    var active: bool
    var accepted: set<nat>
    var doomed: set<nat>
    var statements: set<nat>
    var closed: set<nat>
    var iterators: set<nat>
    var ending: set<nat>
    var returned: set<nat>
    ghost var nexts: map<nat, nat>
    ghost var leaving: set<nat>
    ghost var holder: Option<nat>
    ghost var started: set<nat>
    ghost var visited: set<nat>
    ghost var reached: nat
    ghost var bypassed: nat

    constructor ()
      ensures Now() == START
    {
      phase, aborted, active := Idle, false, true;
      accepted, doomed, nexts, leaving, holder := {}, {}, map[], {}, None;
      statements, closed, iterators, started, ending, returned, visited := {}, {}, {}, {}, {}, {}, {};
      reached, bypassed := 0, 0;
    }

    ghost function Now(): Lifetime
      reads this
    {
      Lifetime(phase, aborted, active, accepted, doomed, nexts, leaving, holder, statements, closed,
               iterators, started, ending, returned, visited, reached, bypassed)
    }

    method Check() returns (open: bool)
      ensures open == Open(Now())
    {
      if aborted { return false; }
      if !active { return false; }
      return true;
    }

    /** `track`: the call is pending either way; its work runs only behind the check. */
    method Track(op: nat) returns (runs: bool)
      requires Enabled(Now(), Call(op))
      modifies this`accepted, this`doomed, this`reached
      ensures runs == old(Open(Now())) && Now() == Next(old(Now()), Call(op))
    {
      runs := Check();
      if runs {
        accepted := accepted + {op};
        reached := reached + 1;
      } else {
        doomed := doomed + {op};
      }
    }

    /** An accepted prepare hands its statement over. */
    method Prepared(op: nat, statement: nat)
      requires Enabled(Now(), SettlePrepare(op, statement))
      modifies this`accepted, this`statements
      ensures Now() == Next(old(Now()), SettlePrepare(op, statement))
    {
      accepted := accepted - {op};
      statements := statements + {statement};
    }

    /** A callback closes a statement of its own: an ordinary checked call. */
    method CallClose(statement: nat, cancels: bool) returns (refused: bool)
      requires Enabled(Now(), CloseByCaller(statement, cancels))
      modifies this`closed, this`holder
      ensures Now() == Next(old(Now()), CloseByCaller(statement, cancels)) && refused == !Open(old(Now()))
    {
      var open := Check();
      if open {
        closed := closed + {statement};
        if cancels { holder := None; }
      }
      refused := !open;
    }

    /** `iterate` of a prepared statement reaches the statement, which refuses only once it is closed. */
    method CallIterate(statement: nat) returns (refused: bool)
      requires Enabled(Now(), Bypass(statement))
      modifies this`bypassed
      ensures Now() == Next(old(Now()), Bypass(statement)) && refused == (statement in closed)
    {
      refused := statement in closed;
      if !refused { bypassed := bypassed + 1; }
    }

    /** A wrapped iterator is entered and asked for its first row. */
    method Iterate(it: nat, op: nat)
      requires Enabled(Now(), OpenIterator(it, op))
      modifies this`iterators, this`started, this`accepted, this`doomed, this`reached, this`nexts
      ensures Now() == Next(old(Now()), OpenIterator(it, op))
    {
      iterators := iterators + {it};
      ghost var l := Now();
      assert Enabled(l, Call(op));
      hide Enabled;
      var runs := Track(op);
      nexts := nexts[op := it];
      if runs { started := started + {it}; }
    }

    /** The wrapper's own finally block, up to its await. */
    method End(it: nat)
      requires Enabled(Now(), EndIterator(it))
      modifies this`iterators, this`ending, this`leaving
      ensures Now() == Next(old(Now()), EndIterator(it))
    {
      iterators := iterators - {it};
      leaving := leaving - {it};
      ending := ending + {it};
    }

    /** `run` from its start to its first await, and from the end of its race to the drain. */
    method Begin()
      requires Enabled(Now(), Start)
      modifies this`phase, this`active
      ensures Now() == Next(old(Now()), Start)
    {
      var open := Check();
      if open {
        phase := Running;
      } else {
        Revoke();
      }
    }

    method Revoke()
      modifies this`phase, this`active
      ensures Now() == old(Now()).(phase := Draining, active := false)
    {
      active := false;
      phase := Draining;
    }

    /** One turn of each cleanup loop. A rejection ends the cleanup. */
    method ReturnIterator(it: nat, ok: bool)
      requires Enabled(Now(), ReturnOne(it, ok))
      modifies this`phase, this`returned, this`visited, this`holder
      ensures Now() == Next(old(Now()), ReturnOne(it, ok))
    {
      holder := LetGo(Now(), it);
      visited := visited + {it};
      returned := returned + {it};
      if !ok { phase := Exited(true); }
    }

    method CloseStatement(statement: nat, ok: bool)
      requires Enabled(Now(), CloseOne(statement, ok))
      modifies this`phase, this`closed
      ensures Now() == Next(old(Now()), CloseOne(statement, ok))
    {
      closed := closed + {statement};
      if !ok { phase := Exited(true); }
    }
  }

  // ---- The write keyword scanner --------------------------------------------------------------

  predicate IsLetter(c: char) {
    'a' <= c <= 'z' || 'A' <= c <= 'Z'
  }

  /** /[A-Za-z_]/ */
  predicate StartsWord(c: char) {
    IsLetter(c) || c == '_'
  }

  /** /[A-Za-z0-9_$]/ */
  predicate ContinuesWord(c: char) {
    StartsWord(c) || '0' <= c <= '9' || c == '$'
  }

  function Upper(c: char): char {
    if 'a' <= c <= 'z' then c - 'a' + 'A' else c
  }

  function UpperCase(s: string): string {
    seq(|s|, i requires 0 <= i < |s| => Upper(s[i]))
  }

  const WRITE_KEYWORDS: set<string> := {"INSERT", "UPDATE", "DELETE", "REPLACE"}

  /** Parenthesis depth in front of position i; a stray `)` does not go below zero. */
  function Depth(text: string, i: nat): nat
    requires i <= |text|
  {
    if i == 0 then 0
    else
      var d := Depth(text, i - 1);
      if text[i - 1] == '(' then d + 1
      else if text[i - 1] == ')' then (if d > 0 then d - 1 else 0)
      else d
  }

  /** A run of word characters that reaches position i began with a word start at j. */
  predicate Reaches(text: string, j: nat, i: nat)
    requires j <= i <= |text|
  {
    j < i && StartsWord(text[j]) && forall k :: j <= k < i ==> ContinuesWord(text[k])
  }

  /** No word extends up to position i. */
  predicate Clear(text: string, i: nat)
    requires i <= |text|
  {
    forall j: nat :: j < i ==> !Reaches(text, j, i)
  }

  /** A word starts at i: a starting character that no earlier word extends over. */
  predicate WordAt(text: string, i: nat)
    requires i < |text|
  {
    StartsWord(text[i]) && Clear(text, i)
  }

  function WordEnd(text: string, i: nat): (end: nat)
    requires i <= |text|
    ensures i <= end <= |text|
    ensures forall k :: i <= k < end ==> ContinuesWord(text[k])
    ensures end < |text| ==> !ContinuesWord(text[end])
    decreases |text| - i
  {
    if i == |text| || !ContinuesWord(text[i]) then i else WordEnd(text, i + 1)
  }

  function SkipSpaces(text: string, i: nat): (end: nat)
    requires i <= |text|
    ensures i <= end <= |text|
    ensures forall k :: i <= k < end ==> IsSpace(text[k])
    ensures end < |text| ==> !IsSpace(text[end])
    decreases |text| - i
  {
    if i == |text| || !IsSpace(text[i]) then i else SkipSpaces(text, i + 1)
  }

  /** A call form such as `replace(..)` is not a statement. */
  predicate CallForm(text: string, end: nat)
    requires end <= |text|
  {
    SkipSpaces(text, end) < |text| && text[SkipSpaces(text, end)] == '('
  }

  /** A bare write keyword at parenthesis depth zero. */
  predicate WriteKeywordAt(text: string, i: nat)
    requires i < |text|
  {
    && WordAt(text, i)
    && Depth(text, i) == 0
    && UpperCase(text[i..WordEnd(text, i)]) in WRITE_KEYWORDS
    && !CallForm(text, WordEnd(text, i))
  }

  /** The characters of words by their code points: A to Z, a to z, the underscore, and inside a word 0 to 9 and $. */
  lemma WordCharacters(c: char)
    ensures StartsWord(c) <==> 65 <= c as int <= 90 || 97 <= c as int <= 122 || c as int == 95
    ensures ContinuesWord(c) <==> StartsWord(c) || 48 <= c as int <= 57 || c as int == 36
  {
  }

  /** The word is the keyword, its letters capital or small. */
  predicate Spells(word: string, keyword: string) {
    && |word| == |keyword|
    && forall i :: 0 <= i < |word| ==> word[i] == keyword[i] || word[i] as int == keyword[i] as int + 32
  }

  lemma SpellsIff(word: string, keyword: string)
    requires forall i :: 0 <= i < |keyword| ==> 'A' <= keyword[i] <= 'Z'
    ensures UpperCase(word) == keyword <==> Spells(word, keyword)
  {
    forall i | 0 <= i < |word| && i < |keyword|
      ensures Upper(word[i]) == keyword[i] <==> word[i] == keyword[i] || word[i] as int == keyword[i] as int + 32
    {
    }
    if UpperCase(word) == keyword {
      forall i | 0 <= i < |word| ensures Upper(word[i]) == keyword[i] {
        assert UpperCase(word)[i] == keyword[i];
      }
    }
  }

  /** A word is a write keyword in whatever case its letters are. */
  lemma KeywordIff(word: string)
    ensures UpperCase(word) in WRITE_KEYWORDS
       <==> Spells(word, "INSERT") || Spells(word, "UPDATE") || Spells(word, "DELETE") || Spells(word, "REPLACE")
  {
    hide UpperCase, Spells;
    SpellsIff(word, "INSERT");
    SpellsIff(word, "UPDATE");
    SpellsIff(word, "DELETE");
    SpellsIff(word, "REPLACE");
  }

  /** How many more parentheses open than close between two positions. */
  function Balance(text: string, j: nat, i: nat): int
    requires j <= i <= |text|
  {
    if i == j then 0
    else Balance(text, j, i - 1) + if text[i - 1] == '(' then 1 else if text[i - 1] == ')' then -1 else 0
  }

  /** The depth is the greatest balance of the text before a position, wherever that text is taken to begin. */
  lemma {:induction false} DepthIs(text: string, i: nat) returns (from: nat)
    requires i <= |text|
    ensures from <= i && Depth(text, i) == Balance(text, from, i)
    ensures forall j :: 0 <= j <= i ==> Balance(text, j, i) <= Depth(text, i)
  {
    from := i;
    if i > 0 {
      var k := DepthIs(text, i - 1);
      if text[i - 1] != ')' || Depth(text, i - 1) > 0 { from := k; }
    }
  }

  method FindWordEnd(text: string, start: nat) returns (end: nat)
    requires start < |text| && StartsWord(text[start])
    ensures end == WordEnd(text, start) > start
  {
    end := start + 1;
    while end < |text| && ContinuesWord(text[end])
      invariant start < end <= |text|
      invariant WordEnd(text, start) == WordEnd(text, end)
    {
      end := end + 1;
    }
  }

  method FindNonSpace(text: string, start: nat) returns (end: nat)
    requires start <= |text|
    ensures end == SkipSpaces(text, start)
  {
    end := start;
    while end < |text| && IsSpace(text[end])
      invariant start <= end <= |text|
      invariant SkipSpaces(text, start) == SkipSpaces(text, end)
    {
      end := end + 1;
    }
  }

  /** Whether the word from start to end is a bare write keyword. */
  method IsWriteWord(text: string, start: nat, end: nat, depth: nat) returns (write: bool)
    requires start < |text| && WordAt(text, start) && end == WordEnd(text, start) && depth == Depth(text, start)
    ensures write <==> WriteKeywordAt(text, start)
  {
    if depth == 0 && UpperCase(text[start..end]) in WRITE_KEYWORDS {
      var lookahead := FindNonSpace(text, end);
      return lookahead == |text| || text[lookahead] != '(';
    }
    return false;
  }

  lemma NoWordInside(text: string, start: nat, end: nat)
    requires start < end <= |text| && StartsWord(text[start])
    requires forall k :: start <= k < end ==> ContinuesWord(text[k])
    ensures forall i: nat :: start < i < end ==> !WriteKeywordAt(text, i)
  {
    forall i: nat | start < i < end ensures !WriteKeywordAt(text, i) {
      assert Reaches(text, start, i);
    }
  }

  /** `hasTopLevelWriteKeyword`: one pass over the text, word by word. */
  method HasTopLevelWriteKeyword(text: string) returns (found: bool)
    ensures found <==> exists i: nat :: i < |text| && WriteKeywordAt(text, i)
  {
    hide Clear, UpperCase, WordEnd;
    var depth := 0;
    var index := 0;
    ClearAtStart(text);
    while index < |text|
      invariant 0 <= index <= |text|
      invariant depth == Depth(text, index)
      invariant forall i: nat :: i < index ==> !WriteKeywordAt(text, i)
      invariant index < |text| && ContinuesWord(text[index]) ==> Clear(text, index)
    {
      var c := text[index];
      if c == '(' {
        depth := depth + 1;
        ClearAfter(text, index);
        index := index + 1;
      } else if c == ')' {
        depth := if depth > 0 then depth - 1 else 0;
        ClearAfter(text, index);
        index := index + 1;
      } else if !StartsWord(c) {
        ClearAfter(text, index);
        index := index + 1;
      } else {
        var end := FindWordEnd(text, index);
        var write := IsWriteWord(text, index, end, depth);
        if write {
          return true;
        }
        DepthInsideWord(text, index, end);
        NoWordInside(text, index, end);
        index := end;
      }
    }
    return false;
  }

  lemma ClearAtStart(text: string)
    ensures Clear(text, 0)
  {
  }

  /** A character that starts no word ends whatever word came up to it, or continues none. */
  lemma ClearAfter(text: string, i: nat)
    requires i < |text| && !StartsWord(text[i])
    requires ContinuesWord(text[i]) ==> Clear(text, i)
    ensures Clear(text, i + 1)
  {
    var next := i + 1;
    forall j: nat | j < next ensures !Reaches(text, j, next) {
      if Reaches(text, j, next) {
        assert ContinuesWord(text[i]);
        assert Reaches(text, j, i);
      }
    }
  }

  lemma {:induction false} DepthInsideWord(text: string, i: nat, end: nat)
    requires i <= end <= |text|
    requires forall k :: i <= k < end ==> ContinuesWord(text[k])
    ensures Depth(text, end) == Depth(text, i)
    decreases end - i
  {
    if i < end { DepthInsideWord(text, i, end - 1); }
  }
}
