/**
 The end of a transaction's callback: live iterations are cancelled, accepted
 operations are drained. Operations and iterations of one transaction queue at its
 own gate, and an iteration keeps the gate while it stands at a row.
 */
module TransactionDrain {
  import opened Options

  /**
   Who queues at the gate: a tracked operation, which may have a second visit to make
   (`run`, `get` and `all` of the handle first prepare a statement); the untracked
   preparation of an `iterate(sql)` of the handle, which goes on as an iteration; or an
   iteration. A second visit queues up when the first one ends. A first visit by way of
   the handle queues up some time after the call, since the handle awaits its connection.
   */
  datatype Caller = Op(op: nat, again: bool) | Prepare(it: nat) | Iteration(it: nat)

  /**
   `coming` are those that have been called and do not queue yet, in order. `suspended`
   says that the holder is an iteration standing at a row, `entered` are the
   iterations that have been asked for a first row, and `cancels` is what each
   statement's `cancelIterator` stands for. A closed statement takes no iteration;
   `hidden` are the statements of the handle's own iterations.
   */
  datatype State = State(draining: bool, holder: Option<Caller>, suspended: bool, queue: seq<Caller>, coming: seq<Caller>,
                         statementOf: map<nat, nat>, entered: set<nat>, cancelled: set<nat>, cancels: map<nat, nat>,
                         closed: set<nat>, hidden: set<nat>)

  const START := State(false, None, false, [], [], map[], {}, {}, map[], {}, {})

  datatype Step =
    | Iterate(it: nat, statement: nat)        // iterate(..) of a statement makes the generator
    | Enter(it: nat)                          // its first next()
    | IterateHandle(it: nat, statement: nat)  // the first next() of iterate(sql) of the handle
    | Resume(it: nat)                         // a later next()
    | Return(it: nat)                         // its consumer ends it
    | Issue(op: nat)                          // by way of a statement
    | IssueHandle(op: nat, again: bool)       // by way of the handle
    | Arrive                                  // the next one that is coming queues up
    | Grant
    | Leave(ok: bool)                         // the visit of an operation or a preparation ends
    | Row                                     // the holder has a row for its consumer
    | IterationEnds                           // the holder has no more rows, or fails
    | Close(statement: nat)
    | Settle                                  // the callback has ended

  predicate HoldsGate(s: State, it: nat) {
    s.holder == Some(Iteration(it))
  }

  predicate Iterates(s: State) {
    s.holder.Some? && s.holder.value.Iteration?
  }

  predicate Enabled(s: State, step: Step) {
    match step
    case Iterate(it, statement) => it !in s.statementOf && statement !in s.closed && statement !in s.hidden
    case Enter(it) => it in s.statementOf && it !in s.entered && it !in s.cancelled
    case IterateHandle(it, statement) =>
      it !in s.statementOf && statement !in s.statementOf.Values && statement !in s.closed && statement !in s.hidden
    case Resume(it) => s.suspended && HoldsGate(s, it)
    case Return(it) => s.suspended && HoldsGate(s, it)
    case Issue(_) => true
    case IssueHandle(_, _) => true
    case Arrive => s.coming != []
    case Grant => s.holder == None && s.queue != []
    case Leave(_) => s.holder.Some? && !s.holder.value.Iteration?
    case Row => Iterates(s) && !s.suspended
    case IterationEnds => Iterates(s) && !s.suspended
    case Close(statement) => statement !in s.hidden
    case Settle => !s.draining
  }

  /** The generator's finally block: it clears its statement's `cancelIterator`, whoever that stands for. */
  function Finished(s: State, it: nat): State {
    s.(holder := None, suspended := false, cancels := if it in s.statementOf then s.cancels - {s.statementOf[it]} else s.cancels)
  }

  function CancelledBy(s: State, statements: set<nat>): set<nat> {
    set statement | statement in statements && statement in s.cancels :: s.cancels[statement]
  }

  /** `cancelIteration` of each of these statements: an iteration at a row ends at once, a running one at its next row. */
  function Cancel(s: State, statements: set<nat>): State {
    var its := CancelledBy(s, statements);
    var frees := s.suspended && s.holder.Some? && s.holder.value.Iteration? && s.holder.value.it in its;
    s.(cancelled := s.cancelled + its, cancels := s.cancels - statements,
       holder := if frees then None else s.holder, suspended := s.suspended && !frees)
  }

  /** A visit ends: a failing one for good, else the caller goes on with what it has yet to do. */
  function Left(s: State, ok: bool): State
    requires s.holder.Some?
  {
    var gone := s.(holder := None);
    match s.holder.value
    case Op(op, again) => if ok && again then gone.(queue := s.queue + [Op(op, false)]) else gone
    case Prepare(it) =>
      if ok && it in s.statementOf then
        gone.(queue := s.queue + [Iteration(it)], cancels := s.cancels[s.statementOf[it] := it])
      else gone
    case Iteration(_) => s
  }

  function Next(s: State, step: Step): State
    requires Enabled(s, step)
  {
    match step
    case Iterate(it, statement) => s.(statementOf := s.statementOf[it := statement], cancels := s.cancels[statement := it])
    case Enter(it) => s.(entered := s.entered + {it}, queue := s.queue + [Iteration(it)])
    case IterateHandle(it, statement) =>
      s.(statementOf := s.statementOf[it := statement], hidden := s.hidden + {statement}, entered := s.entered + {it},
         coming := s.coming + [Prepare(it)])
    case Resume(_) => s.(suspended := false)
    case Return(it) => Finished(s, it)
    case Issue(op) => s.(queue := s.queue + [Op(op, false)])
    case IssueHandle(op, again) => s.(coming := s.coming + [Op(op, again)])
    case Arrive => s.(queue := s.queue + [s.coming[0]], coming := s.coming[1..])
    case Grant => s.(holder := Some(s.queue[0]), queue := s.queue[1..])
    case Leave(ok) => Left(s, ok)
    case Row => if s.holder.value.it in s.cancelled then Finished(s, s.holder.value.it) else s.(suspended := true)
    case IterationEnds => Finished(s, s.holder.value.it)
    case Close(statement) => Cancel(s, {statement}).(closed := s.closed + {statement})
    case Settle => Cancel(s, s.cancels.Keys).(draining := true)
  }

  predicate IsRun(s: State, steps: seq<Step>)
    decreases |steps|
  {
    steps == [] || (Enabled(s, steps[0]) && IsRun(Next(s, steps[0]), steps[1..]))
  }

  function After(s: State, steps: seq<Step>): State
    requires IsRun(s, steps)
    decreases |steps|
  {
    if steps == [] then s else After(Next(s, steps[0]), steps[1..])
  }

  /** Whoever is at the gate, the holder first. */
  function Line(s: State): seq<Caller> {
    (if s.holder.Some? then [s.holder.value] else []) + s.queue
  }

  /** And whoever is coming. */
  function All(s: State): seq<Caller> {
    Line(s) + s.coming
  }

  /** An iteration, or what is going to be one. */
  predicate Iterative(c: Caller) {
    c.Prepare? || c.Iteration?
  }

  /**
   A statement's `cancelIterator` stands for one of its own iterations, only an iteration
   that has not been cancelled stands at a row, and nothing is cancelled that is still
   being prepared.
   */
  ghost predicate Inv(s: State) {
    CancelsOwn(s) && StandsUncancelled(s) && Known(s) && AtGateOnce(All(s)) && ComeByHandle(s)
  }

  ghost predicate CancelsOwn(s: State) {
    && (forall statement :: statement in s.cancels ==>
          s.cancels[statement] in s.statementOf && s.statementOf[s.cancels[statement]] == statement)
    && s.cancelled <= s.statementOf.Keys
  }

  predicate StandsUncancelled(s: State) {
    s.suspended ==> Iterates(s) && s.holder.value.it !in s.cancelled
  }

  /** An iteration does not come by way of the handle; what becomes one does. */
  predicate ComeByHandle(s: State) {
    forall c :: c in s.coming ==> !c.Iteration?
  }

  ghost predicate Known(s: State) {
    && (forall c :: c in All(s) && Iterative(c) ==> c.it in s.statementOf && c.it in s.entered)
    && (forall c :: c in All(s) && c.Prepare? ==> c.it !in s.cancelled)
    && (forall c, statement :: c in All(s) && c.Prepare? && statement in s.cancels ==> s.cancels[statement] != c.it)
  }

  /** An iteration is there once. */
  ghost predicate AtGateOnce(line: seq<Caller>) {
    forall i, j :: 0 <= i < j < |line| && Iterative(line[i]) && Iterative(line[j]) ==> line[i].it != line[j].it
  }

  /** Who is coming after a step. */
  function Coming(s: State, step: Step): seq<Caller> {
    match step
    case IterateHandle(it, _) => s.coming + [Prepare(it)]
    case IssueHandle(op, again) => s.coming + [Op(op, again)]
    case Arrive => if s.coming != [] then s.coming[1..] else []
    case _ => s.coming
  }

  /** Who queues up by a step, if anybody. */
  function Joining(s: State, step: Step): seq<Caller> {
    match step
    case Enter(it) => [Iteration(it)]
    case Issue(op) => [Op(op, false)]
    case Arrive => if s.coming != [] then [s.coming[0]] else []
    case Leave(ok) =>
      if !ok || s.holder == None then []
      else if s.holder.value.Op? && s.holder.value.again then [Op(s.holder.value.op, false)]
      else if s.holder.value.Prepare? && s.holder.value.it in s.statementOf then [Iteration(s.holder.value.it)]
      else []
    case _ => []
  }

  lemma LineStays(s: State, s': State, joining: seq<Caller>)
    requires s'.holder == s.holder && s'.queue == s.queue + joining
    ensures Line(s') == Line(s) + joining
  {
  }

  lemma LineLoses(s: State, s': State, joining: seq<Caller>)
    requires s.holder.Some? && s'.holder == None && s'.queue == s.queue + joining
    ensures Line(s) != [] && Line(s)[0] == s.holder.value && Line(s') == Line(s)[1..] + joining
  {
    assert Line(s)[1..] == s.queue;
  }

  lemma LineGrants(s: State)
    requires Enabled(s, Grant)
    ensures Line(Next(s, Grant)) == Line(s) + []
  {
  }

  /** A step takes at most the holder off the line. */
  lemma LineMoves(s: State, step: Step)
    requires Enabled(s, step)
    ensures Line(Next(s, step)) == Line(s) + Joining(s, step)
         || (Line(s) != [] && s.holder == Some(Line(s)[0]) && Line(Next(s, step)) == Line(s)[1..] + Joining(s, step))
    ensures step.Leave? ==> Line(s) != [] && s.holder == Some(Line(s)[0]) && Line(Next(s, step)) == Line(s)[1..] + Joining(s, step)
  {
    hide Line, CancelledBy;
    var s' := Next(s, step);
    if step.Grant? {
      LineGrants(s);
    } else {
      assert s.queue + [] == s.queue;
      assert s'.queue == s.queue + Joining(s, step);
      if s'.holder == s.holder { LineStays(s, s', Joining(s, step)); } else { LineLoses(s, s', Joining(s, step)); }
    }
  }

  lemma LineHas(s: State, step: Step, c: Caller)
    requires Enabled(s, step) && c in Line(Next(s, step))
    ensures c in Line(s) || c in Joining(s, step)
  {
    LineMoves(s, step);
    hide Line, Next, Enabled, Joining;
  }

  /** Who is there after a step was there before, or is called or goes on by it. */
  lemma AllHas(s: State, step: Step, c: Caller)
    requires Enabled(s, step) && c in All(Next(s, step))
    ensures c in All(s) || (c in Joining(s, step) && !step.Arrive?) || (step.IterateHandle? && c == Prepare(step.it))
         || (step.IssueHandle? && c == Op(step.op, step.again))
  {
    assert Next(s, step).coming == Coming(s, step);
    if c in Line(Next(s, step)) { LineHas(s, step, c); }
    if step.Arrive? { assert s.coming == [s.coming[0]] + s.coming[1..]; }
    hide Line, Next;
  }

  /** Nobody is in both lists. */
  ghost predicate Apart(a: seq<Caller>, b: seq<Caller>) {
    forall x, y :: x in a && y in b && Iterative(x) && Iterative(y) ==> x.it != y.it
  }

  lemma OnceSplits(a: seq<Caller>, b: seq<Caller>)
    ensures AtGateOnce(a + b) <==> AtGateOnce(a) && AtGateOnce(b) && Apart(a, b)
  {
    var all := a + b;
    if AtGateOnce(all) {
      forall i, j | 0 <= i < j < |a| && Iterative(a[i]) && Iterative(a[j]) ensures a[i].it != a[j].it {
        assert all[i] == a[i] && all[j] == a[j];
      }
      forall i, j | 0 <= i < j < |b| && Iterative(b[i]) && Iterative(b[j]) ensures b[i].it != b[j].it {
        assert all[|a| + i] == b[i] && all[|a| + j] == b[j];
      }
      forall x, y | x in a && y in b && Iterative(x) && Iterative(y) ensures x.it != y.it {
        var i :| 0 <= i < |a| && a[i] == x;
        var j :| 0 <= j < |b| && b[j] == y;
        assert all[i] == x && all[|a| + j] == y;
      }
    }
    if AtGateOnce(a) && AtGateOnce(b) && Apart(a, b) {
      forall i, j | 0 <= i < j < |all| && Iterative(all[i]) && Iterative(all[j]) ensures all[i].it != all[j].it {
        if i < |a| <= j { assert all[i] in a && all[j] in b; }
      }
    }
  }

  lemma OnceOf(c: Caller)
    ensures AtGateOnce([c]) && AtGateOnce([])
  {
  }

  /** One more caller between two lists. */
  lemma OnceBetween(a: seq<Caller>, c: Caller, b: seq<Caller>)
    requires AtGateOnce(a + b) && (Iterative(c) ==> forall x :: (x in a || x in b) && Iterative(x) ==> x.it != c.it)
    ensures AtGateOnce(a + [c] + b)
  {
    OnceSplits(a, b);
    OnceSplits(a, [c]);
    OnceSplits(a + [c], b);
    OnceOf(c);
    assert forall x :: x in a + [c] <==> x in a || x == c;
    hide AtGateOnce;
  }

  /** Whoever is behind the head has another number. */
  lemma HeadIsApart(c: Caller, rest: seq<Caller>)
    requires AtGateOnce([c] + rest)
    ensures AtGateOnce(rest)
    ensures Iterative(c) ==> forall x :: x in rest && Iterative(x) ==> x.it != c.it
  {
    OnceSplits([c], rest);
    assert c in [c];
    hide AtGateOnce;
  }

  /** The holder and the others. */
  lemma AllBehind(s: State)
    requires s.holder.Some?
    ensures All(s) == [s.holder.value] + (s.queue + s.coming) && s.holder.value in All(s)
  {
    assert All(s)[0] == s.holder.value;
  }

  lemma NewIsApart(s: State, c: Caller)
    requires Known(s) && (Iterative(c) ==> c.it !in s.statementOf || c.it !in s.entered)
    ensures Iterative(c) ==> forall x :: x in All(s) && Iterative(x) ==> x.it != c.it
  {
    hide All;
  }

  /** A caller queues up. */
  lemma AllJoins(s: State, s': State, c: Caller)
    requires s'.holder == s.holder && s'.queue == s.queue + [c] && s'.coming == s.coming
    ensures All(s') == Line(s) + [c] + s.coming && All(s) == Line(s) + s.coming
  {
  }

  /** A caller is coming. */
  lemma AllCalls(s: State, s': State, c: Caller)
    requires s'.holder == s.holder && s'.queue == s.queue && s'.coming == s.coming + [c]
    ensures All(s') == All(s) + [c] + [] && All(s) + [] == All(s)
  {
  }

  /** They move on. */
  lemma AllMove(s: State, step: Step)
    requires Enabled(s, step) && (step.Arrive? || step.Grant?)
    ensures All(Next(s, step)) == All(s)
  {
    if step.Grant? {
      LineGrants(s);
      assert Line(s) + [] == Line(s);
    } else {
      LineStays(s, Next(s, step), [s.coming[0]]);
      HeadAndTail(Line(s), s.coming);
    }
    hide Line, Enabled;
  }

  lemma HeadAndTail(a: seq<Caller>, b: seq<Caller>)
    requires b != []
    ensures a + [b[0]] + b[1..] == a + b
  {
  }

  lemma StepKeepsOnce(s: State, step: Step)
    requires Inv(s) && Enabled(s, step)
    ensures AtGateOnce(All(Next(s, step)))
  {
    hide AtGateOnce, Known, All, Line, CancelsOwn;
    var s' := Next(s, step);
    match step
    case Enter(it) =>
      NewIsApart(s, Iteration(it));
      AllJoins(s, s', Iteration(it));
      CallersOf(s);
      OnceBetween(Line(s), Iteration(it), s.coming);
    case Issue(op) =>
      AllJoins(s, s', Op(op, false));
      OnceBetween(Line(s), Op(op, false), s.coming);
    case IterateHandle(it, _) =>
      NewIsApart(s, Prepare(it));
      AllCalls(s, s', Prepare(it));
      OnceBetween(All(s), Prepare(it), []);
    case IssueHandle(op, again) =>
      AllCalls(s, s', Op(op, again));
      OnceBetween(All(s), Op(op, again), []);
    case Arrive => AllMove(s, step);
    case Grant => AllMove(s, step);
    case Leave(ok) => LeaveKeepsOnce(s, ok);
    case _ => OthersKeepOnce(s, s');
  }

  lemma CallersOf(s: State)
    ensures forall c :: c in All(s) <==> c in Line(s) || c in s.coming
  {
  }

  lemma LeaveKeepsOnce(s: State, ok: bool)
    requires AtGateOnce(All(s)) && Enabled(s, Leave(ok))
    ensures AtGateOnce(All(Left(s, ok)))
  {
    var c := s.holder.value;
    AllBehind(s);
    HeadIsApart(c, s.queue + s.coming);
    var s' := Left(s, ok);
    hide AtGateOnce;
    if s'.queue == s.queue {
      assert All(s') == s.queue + s.coming;
    } else {
      var c' := s'.queue[|s.queue|];
      OnceBetween(s.queue, c', s.coming);
      assert All(s') == s.queue + [c'] + s.coming;
    }
  }

  lemma OthersKeepOnce(s: State, s': State)
    requires AtGateOnce(All(s)) && s'.queue == s.queue && s'.coming == s.coming
    requires s'.holder == s.holder || (s.holder.Some? && s'.holder == None)
    ensures AtGateOnce(All(s'))
  {
    hide AtGateOnce;
    if s'.holder == s.holder {
      assert All(s') == All(s);
    } else {
      AllBehind(s);
      HeadIsApart(s.holder.value, s.queue + s.coming);
      assert All(s') == s.queue + s.coming;
    }
  }

  lemma StepKeepsOwn(s: State, step: Step)
    requires CancelsOwn(s) && Known(s) && StandsUncancelled(s) && Enabled(s, step)
    ensures CancelsOwn(Next(s, step)) && StandsUncancelled(Next(s, step))
  {
    hide Known;
  }

  /** What is being prepared has no part in cancelling. */
  lemma CancelsNew(s: State, step: Step, it: nat)
    requires CancelsOwn(s) && Enabled(s, step)
    ensures it in Next(s, step).cancelled ==> it in s.cancelled || exists statement :: statement in s.cancels && s.cancels[statement] == it
    ensures forall statement :: statement in Next(s, step).cancels && Next(s, step).cancels[statement] == it ==>
              (statement in s.cancels && s.cancels[statement] == it) || (step.Iterate? && step.it == it)
              || (step.Leave? && s.holder == Some(Prepare(it)))
  {
  }

  lemma StepKeepsKnown(s: State, step: Step)
    requires Inv(s) && Enabled(s, step)
    ensures Known(Next(s, step))
  {
    var s' := Next(s, step);
    forall c | c in All(s') && Iterative(c) ensures c.it in s'.statementOf && c.it in s'.entered {
      CallerIsKnown(s, step, c);
    }
    forall c | c in All(s') && c.Prepare? ensures PreparingUncancelled(s', c.it) {
      PreparingStays(s, step, c);
    }
    hide All, Next, Enabled, Inv;
  }

  lemma CallerIsKnown(s: State, step: Step, c: Caller)
    requires Inv(s) && Enabled(s, step) && c in All(Next(s, step)) && Iterative(c)
    ensures c.it in Next(s, step).statementOf && c.it in Next(s, step).entered
  {
    AllHas(s, step, c);
    if s.holder.Some? { AllBehind(s); }
    hide All, AtGateOnce, CancelsOwn;
  }

  ghost predicate PreparingUncancelled(s: State, it: nat) {
    it !in s.cancelled && forall statement :: statement in s.cancels ==> s.cancels[statement] != it
  }

  lemma PreparingStays(s: State, step: Step, c: Caller)
    requires Inv(s) && Enabled(s, step) && c in All(Next(s, step)) && c.Prepare?
    ensures PreparingUncancelled(Next(s, step), c.it)
  {
    AllHas(s, step, c);
    CancelsNew(s, step, c.it);
    if step.Leave? { GoneIsNotThere(s, step.ok, c); }
    hide All, AtGateOnce;
  }

  /** Whoever has been prepared is not being prepared any more. */
  lemma GoneIsNotThere(s: State, ok: bool, c: Caller)
    requires Inv(s) && Enabled(s, Leave(ok)) && c in All(Left(s, ok)) && c.Prepare?
    ensures s.holder != Some(c)
  {
    AllBehind(s);
    HeadIsApart(s.holder.value, s.queue + s.coming);
    hide AtGateOnce;
    assert c in s.queue + s.coming;
  }

  lemma StepKeepsByHandle(s: State, step: Step)
    requires ComeByHandle(s) && Enabled(s, step)
    ensures ComeByHandle(Next(s, step))
  {
  }

  lemma StepKeepsInv(s: State, step: Step)
    requires Inv(s) && Enabled(s, step)
    ensures Inv(Next(s, step))
  {
    hide CancelsOwn, StandsUncancelled, Known, AtGateOnce, All, Next, Enabled, ComeByHandle;
    StepKeepsOwn(s, step);
    StepKeepsKnown(s, step);
    StepKeepsOnce(s, step);
    StepKeepsByHandle(s, step);
  }

  lemma {:induction false} RunKeepsInv(s: State, steps: seq<Step>)
    requires Inv(s) && IsRun(s, steps)
    ensures Inv(After(s, steps))
    decreases |steps|
  {
    if steps != [] {
      StepKeepsInv(s, steps[0]);
      RunKeepsInv(Next(s, steps[0]), steps[1..]);
    }
  }

  // ---- When the drain ends ------------------------------------------------------------------------

  predicate HasOp(line: seq<Caller>) {
    exists i :: 0 <= i < |line| && line[i].Op?
  }

  /** Every accepted operation has settled. */
  predicate Drained(s: State) {
    !HasOp(All(s))
  }

  /** The steps that need nothing from the consumers of iterations or from the callback's code. */
  predicate OfItself(step: Step) {
    step.Arrive? || step.Grant? || step.Leave? || step.Row? || step.IterationEnds?
  }

  predicate AllOfItself(steps: seq<Step>) {
    forall i :: 0 <= i < |steps| ==> OfItself(steps[i])
  }

  /** An iteration stands at a row and an operation waits behind it. */
  predicate Blocked(s: State) {
    s.suspended && HasOp(s.queue)
  }

  /** Nothing happens of itself any more. */
  ghost predicate AtRest(s: State) {
    forall step :: OfItself(step) ==> !Enabled(s, step)
  }

  /** How many steps a caller can make of itself once it queues. */
  function StepsOf(c: Caller): nat {
    match c
    case Op(_, again) => if again then 4 else 2
    case Prepare(_) => 4
    case Iteration(_) => 2
  }

  function StepsOfAll(line: seq<Caller>): nat {
    if line == [] then 0 else StepsOf(line[0]) + StepsOfAll(line[1..])
  }

  /** How many steps can be made of itself. */
  function Work(s: State): nat {
    |s.coming| + StepsOfAll(s.queue + s.coming) + if s.holder.None? || s.suspended then 0 else StepsOf(s.holder.value) - 1
  }

  /**
   Whatever the iterations yield, the operations settle after so many steps: wherever
   nothing happens of itself any more, all have settled.
   */
  ghost predicate MustDrain(s: State) {
    forall steps :: AllOfItself(steps) && IsRun(s, steps) ==>
      |steps| <= Work(s) && (AtRest(After(s, steps)) ==> Drained(After(s, steps)))
  }

  /** The iterations that `settle` cancels, and those that have been. */
  function Reached(s: State): set<nat> {
    s.cancelled + CancelledBy(s, s.cancels.Keys)
  }

  /**
   These two callers, by place, can get into each other's way, the first `here` of them
   being at the gate: an iteration that is not cancelled may stand at a row while the
   operation is behind it, on its first visit or on its second one; and so may the
   iteration that a preparation becomes, if the operation is yet to come or to come again.
   */
  predicate Exposes(all: seq<Caller>, here: nat, reached: set<nat>, i: nat, j: nat) {
    && i < |all| && j < |all| && all[j].Op?
    && ((all[i].Iteration? && all[i].it !in reached && (i < j || all[j].again))
        || (all[i].Prepare? && i < j && (all[j].again || j >= here)))
  }

  predicate Exposed(all: seq<Caller>, here: nat, reached: set<nat>) {
    exists i, j :: 0 <= i < |all| && 0 <= j < |all| && Exposes(all, here, reached, i, j)
  }

  /** Two of the callers can, where these iterations are cancelled. */
  predicate AtRisk(s: State, reached: set<nat>) {
    Exposed(All(s), |Line(s)|, reached)
  }

  lemma {:induction false} StepsAppend(a: seq<Caller>, b: seq<Caller>)
    ensures StepsOfAll(a + b) == StepsOfAll(a) + StepsOfAll(b)
  {
    if a == [] {
      assert a + b == b;
    } else {
      assert (a + b)[1..] == a[1..] + b;
      StepsAppend(a[1..], b);
    }
  }

  lemma StepsOfOne(c: Caller)
    ensures StepsOfAll([c]) == StepsOf(c) && StepsOfAll([]) == 0
  {
    assert [c][1..] == [];
  }

  /** One more caller between two lists. */
  lemma StepsBetween(a: seq<Caller>, c: Caller, b: seq<Caller>)
    ensures StepsOfAll(a + [c] + b) == StepsOfAll(a + b) + StepsOf(c)
  {
    StepsAppend(a + [c], b);
    StepsAppend(a, [c]);
    StepsAppend(a, b);
    StepsOfOne(c);
  }

  lemma QueueShrinks(s: State, step: Step)
    requires Enabled(s, step) && (step.Grant? || step.Arrive?)
    ensures Work(Next(s, step)) < Work(s)
  {
    hide StepsOfAll;
    var s' := Next(s, step);
    if step.Grant? {
      assert s.queue + s.coming == [s.queue[0]] + (s'.queue + s.coming);
      StepsAppend([s.queue[0]], s'.queue + s.coming);
      StepsOfOne(s.queue[0]);
    } else {
      assert s'.queue + s'.coming == s.queue + s.coming;
    }
  }

  lemma VisitShrinks(s: State, ok: bool)
    requires Enabled(s, Leave(ok)) && !s.suspended
    ensures Work(Left(s, ok)) < Work(s)
  {
    hide StepsOfAll;
    var s' := Left(s, ok);
    if s'.queue != s.queue {
      var c' := s'.queue[|s.queue|];
      assert s'.queue == s.queue + [c'];
      StepsBetween(s.queue, c', s.coming);
    }
  }

  /** Every step of itself takes some of the work away. */
  lemma WorkShrinks(s: State, step: Step)
    requires StandsUncancelled(s) && Enabled(s, step) && OfItself(step)
    ensures Work(Next(s, step)) < Work(s)
  {
    hide StepsOfAll;
    if step.Grant? || step.Arrive? { QueueShrinks(s, step); }
    else if step.Leave? { VisitShrinks(s, step.ok); }
  }

  /** Nothing happens of itself exactly if nobody is coming and the gate is free and unwanted, or an iteration stands at a row. */
  lemma AtRestIff(s: State)
    requires StandsUncancelled(s)
    ensures AtRest(s) <==> s.coming == [] && (s.suspended || (s.holder == None && s.queue == []))
  {
    if s.coming != [] { assert Enabled(s, Arrive) && OfItself(Arrive); }
    if s.holder.None? {
      if s.queue != [] { assert Enabled(s, Grant) && OfItself(Grant); }
    } else if s.holder.value.Iteration? {
      if !s.suspended { assert Enabled(s, Row) && OfItself(Row); }
    } else {
      assert Enabled(s, Leave(true)) && OfItself(Leave(true));
    }
  }

  lemma HasOpMember(line: seq<Caller>)
    ensures HasOp(line) <==> exists c :: c in line && c.Op?
  {
    if HasOp(line) {
      var i :| 0 <= i < |line| && line[i].Op?;
      assert line[i] in line;
    }
  }

  /** At rest the operations have settled unless they are blocked. */
  lemma RestIsDrainedOrBlocked(s: State)
    requires StandsUncancelled(s) && AtRest(s)
    ensures Drained(s) <==> !Blocked(s)
  {
    AtRestIff(s);
    HasOpMember(s.queue);
    HasOpMember(All(s));
    if s.suspended {
      AllBehind(s);
      assert s.queue + s.coming == s.queue;
    }
    hide HasOp, All;
  }

  // ---- Callers that are not in each other's way -------------------------------------------------------

  /** Whatever a caller is put in front of, it does not take the exposure away. */
  lemma ExposedTail(c: Caller, rest: seq<Caller>, here: nat, reached: set<nat>)
    requires Exposed(rest, here, reached)
    ensures Exposed([c] + rest, here + 1, reached)
  {
    var i, j :| 0 <= i < |rest| && 0 <= j < |rest| && Exposes(rest, here, reached, i, j);
    assert ([c] + rest)[i + 1] == rest[i] && ([c] + rest)[j + 1] == rest[j];
    assert Exposes([c] + rest, here + 1, reached, i + 1, j + 1);
  }

  /** Where a caller of the line without its head, and with one more at the end of those here, was before. */
  function Was(here: nat, k: nat): nat {
    if k < here then k + 1 else if k == here then 0 else k
  }

  lemma WasThere(c: Caller, c': Caller, line: seq<Caller>, rest: seq<Caller>, k: nat)
    requires k < |line| + 1 + |rest|
    ensures Was(|line|, k) < |line| + 1 + |rest|
    ensures k != |line| ==> ([c] + (line + rest))[Was(|line|, k)] == (line + [c'] + rest)[k]
    ensures k == |line| ==> (line + [c'] + rest)[k] == c'
  {
  }

  /** A caller that goes on at the end of the line is no worse than it was at the head. */
  lemma GoesOnNoWorse(c: Caller, c': Caller, line: seq<Caller>, rest: seq<Caller>, reached: set<nat>)
    requires (c.Op? && c.again && c' == Op(c.op, false)) || (c.Prepare? && c' == Iteration(c.it))
    requires Exposed(line + [c'] + rest, |line| + 1, reached)
    ensures Exposed([c] + (line + rest), |line| + 1, reached)
  {
    var all, all' := [c] + (line + rest), line + [c'] + rest;
    var n := |line|;
    var i, j :| 0 <= i < |all'| && 0 <= j < |all'| && Exposes(all', n + 1, reached, i, j);
    WasThere(c, c', line, rest, i);
    WasThere(c, c', line, rest, j);
    assert all[0] == c;
    assert Exposes(all, n + 1, reached, Was(n, i), Was(n, j));
  }

  lemma ArrivedIsNoWorse(all: seq<Caller>, here: nat, reached: set<nat>)
    requires Exposed(all, here + 1, reached)
    ensures Exposed(all, here, reached)
  {
    var i, j :| 0 <= i < |all| && 0 <= j < |all| && Exposes(all, here + 1, reached, i, j);
    assert Exposes(all, here, reached, i, j);
  }

  /** What a caller goes on as when its visit has ended. */
  function GoesOnAs(c: Caller): Caller {
    match c
    case Op(op, _) => Op(op, false)
    case Prepare(it) => Iteration(it)
    case Iteration(it) => c
  }

  predicate GoesOn(c: Caller) {
    (c.Op? && c.again) || c.Prepare?
  }

  /** Who is there after a visit. */
  lemma AllLeft(s: State, ok: bool)
    requires Enabled(s, Leave(ok))
    ensures All(s) == [s.holder.value] + (s.queue + s.coming) && |Line(s)| == |s.queue| + 1
    ensures (All(Left(s, ok)) == s.queue + s.coming && |Line(Left(s, ok))| == |s.queue|)
         || (GoesOn(s.holder.value)
             && All(Left(s, ok)) == s.queue + [GoesOnAs(s.holder.value)] + s.coming && |Line(Left(s, ok))| == |s.queue| + 1)
    ensures ok && GoesOn(s.holder.value) && (s.holder.value.Prepare? ==> s.holder.value.it in s.statementOf) ==>
              All(Left(s, ok)) == s.queue + [GoesOnAs(s.holder.value)] + s.coming && |Line(Left(s, ok))| == |s.queue| + 1
    ensures !GoesOn(s.holder.value) ==> All(Left(s, ok)) == s.queue + s.coming && |Line(Left(s, ok))| == |s.queue|
  {
  }

  lemma LeavingStaysSafe(s: State, ok: bool)
    requires Enabled(s, Leave(ok)) && AtRisk(Left(s, ok), s.cancelled)
    ensures AtRisk(s, s.cancelled)
  {
    var c := s.holder.value;
    AllLeft(s, ok);
    hide Exposed, All, Line, Left;
    if All(Left(s, ok)) == s.queue + s.coming && |Line(Left(s, ok))| == |s.queue| {
      ExposedTail(c, s.queue + s.coming, |s.queue|, s.cancelled);
    } else {
      GoesOnNoWorse(c, GoesOnAs(c), s.queue, s.coming, s.cancelled);
    }
  }

  /** Without the holder, or with it, nobody else is put at risk. */
  lemma HolderStaysSafe(s: State, s': State)
    requires s.holder.Some? && s'.queue == s.queue && s'.coming == s.coming && (s'.holder == s.holder || s'.holder == None)
    requires AtRisk(s', s.cancelled)
    ensures AtRisk(s, s.cancelled)
  {
    hide Exposed;
    if s'.holder == s.holder {
      assert All(s') == All(s);
    } else {
      AllBehind(s);
      assert All(s') == s.queue + s.coming;
      ExposedTail(s.holder.value, s.queue + s.coming, |s.queue|, s.cancelled);
    }
  }

  /** Whoever waits for the gate is as much at risk with it. */
  lemma GrantingIsTheSame(s: State)
    requires Enabled(s, Grant)
    ensures AtRisk(Next(s, Grant), s.cancelled) <==> AtRisk(s, s.cancelled)
  {
    assert All(Next(s, Grant)) == All(s);
    hide Exposed;
  }

  lemma ArrivingStaysSafe(s: State)
    requires Enabled(s, Arrive) && AtRisk(Next(s, Arrive), s.cancelled)
    ensures AtRisk(s, s.cancelled)
  {
    assert All(Next(s, Arrive)) == All(s);
    hide Exposed;
    ArrivedIsNoWorse(All(s), |Line(s)|, s.cancelled);
  }

  /** Callers that are not at risk stay so of itself. */
  lemma StaysSafe(s: State, step: Step)
    requires Enabled(s, step) && OfItself(step) && !AtRisk(s, s.cancelled)
    ensures !AtRisk(Next(s, step), Next(s, step).cancelled)
  {
    hide AtRisk;
    if AtRisk(Next(s, step), s.cancelled) {
      if step.Grant? { GrantingIsTheSame(s); }
      else if step.Arrive? { ArrivingStaysSafe(s); }
      else if step.Leave? { LeavingStaysSafe(s, step.ok); }
      else { HolderStaysSafe(s, Next(s, step)); }
    }
  }

  lemma BlockedIsAtRisk(s: State)
    requires StandsUncancelled(s) && Blocked(s)
    ensures AtRisk(s, s.cancelled)
  {
    var j :| 0 <= j < |s.queue| && s.queue[j].Op?;
    assert All(s)[0] == s.holder.value && All(s)[j + 1] == s.queue[j];
    assert Exposes(All(s), |Line(s)|, s.cancelled, 0, j + 1);
  }

  lemma {:induction false} SafeDrains(s: State, steps: seq<Step>)
    requires Inv(s) && !AtRisk(s, s.cancelled) && AllOfItself(steps) && IsRun(s, steps)
    ensures |steps| <= Work(s) && (AtRest(After(s, steps)) ==> Drained(After(s, steps)))
    decreases |steps|
  {
    hide AtRisk, Work, Known, CancelsOwn, AtGateOnce, Drained, Blocked, AtRest, OfItself;
    if steps == [] {
      if AtRest(s) {
        RestIsDrainedOrBlocked(s);
        if Blocked(s) { BlockedIsAtRisk(s); }
      }
    } else {
      var step := steps[0];
      assert OfItself(step);
      StepKeepsInv(s, step);
      StaysSafe(s, step);
      WorkShrinks(s, step);
      RestOfItself(steps);
      SafeDrains(Next(s, step), steps[1..]);
    }
  }

  lemma RestOfItself(steps: seq<Step>)
    requires steps != [] && AllOfItself(steps)
    ensures AllOfItself(steps[1..])
  {
    forall i | 0 <= i < |steps[1..]| ensures OfItself(steps[1..][i]) {
      assert steps[1..][i] == steps[i + 1];
    }
  }

  // ---- Callers that are ---------------------------------------------------------------------------------

  lemma ExposedBehind(c: Caller, rest: seq<Caller>, here: nat, reached: set<nat>, i: nat, j: nat)
    requires Exposes([c] + rest, here + 1, reached, i, j) && i > 0 && j > 0
    ensures Exposed(rest, here, reached)
  {
    assert ([c] + rest)[i] == rest[i - 1] && ([c] + rest)[j] == rest[j - 1];
    assert Exposes(rest, here, reached, i - 1, j - 1);
  }

  /** Where a caller is once the head goes on at the end of those here. */
  function WillBe(here: nat, k: nat): nat {
    if k == 0 then here else if k <= here then k - 1 else k
  }

  lemma WillBeThere(c: Caller, c': Caller, line: seq<Caller>, rest: seq<Caller>, k: nat)
    requires k < |line| + 1 + |rest|
    ensures WillBe(|line|, k) < |line| + 1 + |rest|
    ensures k != 0 ==> (line + [c'] + rest)[WillBe(|line|, k)] == ([c] + (line + rest))[k]
    ensures k == 0 ==> (line + [c'] + rest)[WillBe(|line|, k)] == c' && ([c] + (line + rest))[k] == c
  {
  }

  lemma ExposedGoesOn(c: Caller, c': Caller, line: seq<Caller>, rest: seq<Caller>, reached: set<nat>, i: nat, j: nat)
    requires (c.Op? && c.again && c' == Op(c.op, false)) || (c.Prepare? && c' == Iteration(c.it) && c.it !in reached)
    requires forall x :: x in rest ==> !x.Iteration?
    requires Exposes([c] + (line + rest), |line| + 1, reached, i, j)
    ensures Exposed(line + [c'] + rest, |line| + 1, reached)
  {
    var n := |line|;
    WillBeThere(c, c', line, rest, i);
    WillBeThere(c, c', line, rest, j);
    assert forall k :: n < k < n + 1 + |rest| ==> ([c] + (line + rest))[k] in rest;
    assert Exposes(line + [c'] + rest, n + 1, reached, WillBe(n, i), WillBe(n, j));
  }

  /** A visit that succeeds takes no risk away. */
  lemma LeavingKeepsRisk(s: State, c: Caller, i: nat, j: nat)
    requires Known(s) && ComeByHandle(s) && s.holder == Some(c) && !c.Iteration?
    requires Exposes([c] + (s.queue + s.coming), |s.queue| + 1, s.cancelled, i, j)
    ensures AtRisk(Left(s, true), s.cancelled)
  {
    AllLeft(s, true);
    AllBehind(s);
    hide All, Line, Left, Exposed;
    if GoesOn(c) {
      ExposedGoesOn(c, GoesOnAs(c), s.queue, s.coming, s.cancelled, i, j);
    } else {
      assert ([c] + (s.queue + s.coming))[0] == c;
      ExposedBehind(c, s.queue + s.coming, |s.queue|, s.cancelled, i, j);
    }
  }

  /** An iteration with the gate: it stands at a row if it is not cancelled, and the risk stays. */
  lemma RowKeepsRisk(s: State, c: Caller, i: nat, j: nat)
    requires s.holder == Some(c) && c.Iteration? && !s.suspended
    requires Exposes([c] + (s.queue + s.coming), |s.queue| + 1, s.cancelled, i, j)
    ensures AtRisk(Next(s, Row), s.cancelled) && Next(s, Row).cancelled == s.cancelled
  {
    AllBehind(s);
    if c.it in s.cancelled {
      assert ([c] + (s.queue + s.coming))[0] == c;
      ExposedBehind(c, s.queue + s.coming, |s.queue|, s.cancelled, i, j);
      assert All(Next(s, Row)) == s.queue + s.coming;
    } else {
      assert All(Next(s, Row)) == All(s);
    }
  }

  /** An arrival leaves the callers as they are. */
  lemma AllArrives(s: State)
    requires Enabled(s, Arrive)
    ensures All(Next(s, Arrive)) == All(s) && |Line(Next(s, Arrive))| == |Line(s)| + 1
  {
  }

  lemma FirstKeepsRisk(all: seq<Caller>, here: nat, reached: set<nat>, j: nat)
    requires 0 < j < |all| && all[0].Iteration? && all[0].it !in reached && all[j].Op?
    ensures Exposed(all, here, reached)
  {
    assert Exposes(all, here, reached, 0, j);
  }

  lemma ComingKeepsRisk(all: seq<Caller>, reached: set<nat>, i: nat, j: nat)
    requires Exposes(all, 0, reached, i, j) && forall c :: c in all ==> !c.Iteration?
    ensures Exposed(all, 1, reached)
  {
    assert all[i] in all;
    assert Exposes(all, 1, reached, i, j);
  }

  /** With an iteration at a row and nothing blocked, the operation at risk is coming. */
  lemma OpIsComing(s: State, i: nat, j: nat)
    requires StandsUncancelled(s) && !Blocked(s) && s.suspended && Exposes(All(s), |Line(s)|, s.cancelled, i, j)
    ensures j > 0 && s.coming != []
  {
    assert All(s)[0] == s.holder.value;
    assert forall k :: 0 < k < |Line(s)| ==> All(s)[k] == s.queue[k - 1];
  }

  /** With nobody running at the gate, the operation at risk is coming, and still is when somebody has arrived. */
  lemma ArrivingKeepsRisk(s: State, i: nat, j: nat)
    requires StandsUncancelled(s) && ComeByHandle(s) && !Blocked(s) && (s.suspended || (s.holder == None && s.queue == []))
    requires Exposes(All(s), |Line(s)|, s.cancelled, i, j)
    ensures s.coming != [] && AtRisk(Next(s, Arrive), s.cancelled)
  {
    if s.suspended {
      OpIsComing(s, i, j);
      assert All(s)[0] == s.holder.value;
      AllArrives(s);
      hide All, Line, Exposed, Blocked;
      FirstKeepsRisk(All(s), |Line(s)| + 1, s.cancelled, j);
    } else {
      assert All(s) == s.coming && |Line(s)| == 0;
      AllArrives(s);
      hide All, Line, Exposed, Blocked;
      ComingKeepsRisk(s.coming, s.cancelled, i, j);
    }
  }

  lemma HolderKeepsRisk(s: State, i: nat, j: nat) returns (step: Step)
    requires Inv(s) && s.holder.Some? && !s.suspended && Exposes(All(s), |Line(s)|, s.cancelled, i, j)
    ensures Enabled(s, step) && OfItself(step) && AtRisk(Next(s, step), s.cancelled) && Next(s, step).cancelled == s.cancelled
  {
    var c := s.holder.value;
    AllBehind(s);
    hide Exposes, AtRisk, All;
    if c.Iteration? {
      step := Row;
      RowKeepsRisk(s, c, i, j);
    } else {
      step := Leave(true);
      LeavingKeepsRisk(s, c, i, j);
    }
  }

  /** Callers at risk can be driven on until an operation is blocked. */
  lemma RiskyStep(s: State) returns (step: Step)
    requires Inv(s) && AtRisk(s, s.cancelled) && !Blocked(s)
    ensures Enabled(s, step) && OfItself(step) && AtRisk(Next(s, step), Next(s, step).cancelled)
  {
    var i, j :| 0 <= i < |All(s)| && 0 <= j < |All(s)| && Exposes(All(s), |Line(s)|, s.cancelled, i, j);
    hide Exposes, AtRisk, Blocked, All, Known, CancelsOwn, AtGateOnce, Exposed;
    if s.suspended || (s.holder == None && s.queue == []) {
      step := Arrive;
      ArrivingKeepsRisk(s, i, j);
    } else if s.holder == None {
      step := Grant;
      GrantingIsTheSame(s);
    } else {
      step := HolderKeepsRisk(s, i, j);
    }
  }

  /** Whoever is coming arrives, and the operation stays blocked. */
  lemma {:induction false} BlockedComesToRest(s: State) returns (steps: seq<Step>)
    requires StandsUncancelled(s) && Blocked(s)
    ensures AllOfItself(steps) && IsRun(s, steps) && AtRest(After(s, steps)) && !Drained(After(s, steps))
    decreases |s.coming|
  {
    if s.coming == [] {
      steps := [];
      AtRestIff(s);
      RestIsDrainedOrBlocked(s);
    } else {
      var i :| 0 <= i < |s.queue| && s.queue[i].Op?;
      var s' := Next(s, Arrive);
      assert s'.queue[i].Op?;
      var rest := BlockedComesToRest(s');
      steps := [Arrive] + rest;
      assert steps[1..] == rest;
    }
  }

  lemma {:induction false} RiskHangs(s: State) returns (steps: seq<Step>)
    requires Inv(s) && AtRisk(s, s.cancelled)
    ensures AllOfItself(steps) && IsRun(s, steps) && AtRest(After(s, steps)) && !Drained(After(s, steps))
    decreases Work(s)
  {
    hide Work, AtRisk, Line, Blocked, Known, CancelsOwn, AtGateOnce, Enabled, Next, AtRest, Drained;
    if Blocked(s) {
      steps := BlockedComesToRest(s);
    } else {
      var step := RiskyStep(s);
      WorkShrinks(s, step);
      StepKeepsInv(s, step);
      var rest := RiskHangs(Next(s, step));
      steps := [step] + rest;
      assert steps[1..] == rest;
    }
  }

  /** `settle` cancels whatever the statements' `cancelIterator`s stand for, and nothing else. */
  lemma SettleReaches(s: State)
    requires Inv(s) && Enabled(s, Settle)
    ensures Next(s, Settle).cancelled == Reached(s)
    ensures AtRisk(Next(s, Settle), Reached(s)) <==> AtRisk(s, Reached(s))
  {
    var s' := Next(s, Settle);
    if s'.holder == s.holder {
      assert All(s') == All(s);
      hide Exposed;
    } else {
      var c, rest := s.holder.value, s.queue + s.coming;
      AllBehind(s);
      assert All(s') == rest && |Line(s)| == |Line(s')| + 1 && ([c] + rest)[0] == c;
      hide All, Line, Exposes;
      if AtRisk(s', Reached(s)) { ExposedTail(c, rest, |s.queue|, Reached(s)); }
      if AtRisk(s, Reached(s)) {
        var i, j :| 0 <= i < |All(s)| && 0 <= j < |All(s)| && Exposes(All(s), |Line(s)|, Reached(s), i, j);
        HeadIsReached(c, rest, |s.queue| + 1, Reached(s), i, j);
        ExposedBehind(c, rest, |s.queue|, Reached(s), i, j);
      }
    }
  }

  /** A cancelled iteration at the head has no part in it. */
  lemma HeadIsReached(c: Caller, rest: seq<Caller>, here: nat, reached: set<nat>, i: nat, j: nat)
    requires Exposes([c] + rest, here, reached, i, j) && c.Iteration? && c.it in reached
    ensures i > 0 && j > 0
  {
    assert ([c] + rest)[0] == c;
  }

  /**
   The drain of a callback's operations ends, whatever the iterations yield, exactly if
   when the callback ends no two callers are at risk that cancelling leaves so.
   */
  lemma DrainEndsIff(before: seq<Step>)
    requires IsRun(START, before) && Enabled(After(START, before), Settle)
    ensures MustDrain(Next(After(START, before), Settle)) <==> !AtRisk(After(START, before), Reached(After(START, before)))
  {
    RunKeepsInv(START, before);
    var s := After(START, before);
    var s' := Next(s, Settle);
    StepKeepsInv(s, Settle);
    SettleReaches(s);
    hide AtRisk, Reached, Inv, Enabled, Next, IsRun, After, Work, AllOfItself, AtRest, Drained;
    if AtRisk(s', s'.cancelled) {
      var steps := RiskHangs(s');
    } else {
      forall steps | AllOfItself(steps) && IsRun(s', steps)
        ensures |steps| <= Work(s') && (AtRest(After(s', steps)) ==> Drained(After(s', steps)))
      {
        SafeDrains(s', steps);
      }
    }
  }

  /** Neither its consumer nor the closing of its statement ends the iteration. */
  predicate LeftStanding(steps: seq<Step>, it: nat, statement: nat) {
    forall i :: 0 <= i < |steps| ==> steps[i] != Resume(it) && steps[i] != Return(it) && steps[i] != Close(statement)
  }

  /** An operation that is blocked waits until somebody resumes or ends that iteration, or closes its statement. */
  lemma {:induction false} DrainHangs(s: State, it: nat, steps: seq<Step>)
    requires Inv(s) && s.draining && Blocked(s) && HoldsGate(s, it) && it in s.statementOf && IsRun(s, steps)
    requires LeftStanding(steps, it, s.statementOf[it])
    ensures Blocked(After(s, steps)) && !Drained(After(s, steps))
    decreases |steps|
  {
    if steps == [] {
      AllBehind(s);
      HasOpMember(s.queue);
      HasOpMember(All(s));
    } else {
      assert steps[0] != Resume(it) && steps[0] != Return(it) && steps[0] != Close(s.statementOf[it]);
      StepKeepsInv(s, steps[0]);
      StaysStanding(s, it, steps[0]);
      StandingRest(steps, it, s.statementOf[it]);
      DrainHangs(Next(s, steps[0]), it, steps[1..]);
    }
  }

  /** An iteration that is resumed goes on: it ends and lets go of the gate, or stands at its next row. */
  lemma ResumedGoesOn(s: State, it: nat)
    requires Inv(s) && Enabled(s, Resume(it))
    ensures var s' := Next(s, Resume(it));
            && HoldsGate(s', it) && Enabled(s', Row) && Enabled(s', IterationEnds) && !Enabled(s', Resume(it))
            && Next(s', IterationEnds).holder == None && HoldsGate(Next(s', Row), it) && Next(s', Row).suspended
  {
  }

  lemma StandingRest(steps: seq<Step>, it: nat, statement: nat)
    requires steps != [] && LeftStanding(steps, it, statement)
    ensures LeftStanding(steps[1..], it, statement)
  {
    forall i | 0 <= i < |steps[1..]|
      ensures steps[1..][i] != Resume(it) && steps[1..][i] != Return(it) && steps[1..][i] != Close(statement)
    {
      var j := i + 1;
      assert steps[1..][i] == steps[j];
    }
  }

  lemma StaysStanding(s: State, it: nat, step: Step)
    requires CancelsOwn(s) && s.draining && Blocked(s) && HoldsGate(s, it) && it in s.statementOf && Enabled(s, step)
    requires step != Resume(it) && step != Return(it) && step != Close(s.statementOf[it])
    ensures var s' := Next(s, step);
            s'.draining && Blocked(s') && HoldsGate(s', it) && it in s'.statementOf && s'.statementOf[it] == s.statementOf[it]
  {
    var i :| 0 <= i < |s.queue| && s.queue[i].Op?;
    assert Next(s, step).queue[i].Op?;
  }

  // ---- Ways to hang -----------------------------------------------------------------------------------

  lemma {:induction false} RunSnoc(s: State, steps: seq<Step>, step: Step)
    requires IsRun(s, steps) && Enabled(After(s, steps), step)
    ensures IsRun(s, steps + [step]) && After(s, steps + [step]) == Next(After(s, steps), step)
    decreases |steps|
  {
    if steps == [] {
      assert [] + [step] == [step];
      assert [step][1..] == [];
    } else {
      assert (steps + [step])[0] == steps[0] && (steps + [step])[1..] == steps[1..] + [step];
      RunSnoc(Next(s, steps[0]), steps[1..], step);
    }
  }

  /** After these steps the callback ends, and the drain need not. */
  ghost predicate CanHang(steps: seq<Step>) {
    && IsRun(START, steps) && Enabled(After(START, steps), Settle)
    && !MustDrain(Next(After(START, steps), Settle))
  }

  lemma HangsBy(steps: seq<Step>, i: nat, j: nat)
    requires IsRun(START, steps) && Enabled(After(START, steps), Settle)
    requires Exposes(All(After(START, steps)), |Line(After(START, steps))|, Reached(After(START, steps)), i, j)
    ensures CanHang(steps)
  {
    hide All, Line, Reached, IsRun, After, Enabled, Next, MustDrain;
    DrainEndsIff(steps);
  }

  /** A statement is iterated, and its iteration has the gate. */
  const RUNNING: seq<Step> := [] + [Iterate(1, 7)] + [Enter(1)] + [Grant]

  const FIRST_RUNS := State(false, Some(Iteration(1)), false, [], [], map[1 := 7], {1}, {}, map[7 := 1], {}, {})

  lemma FirstRuns()
    ensures IsRun(START, RUNNING) && After(START, RUNNING) == FIRST_RUNS
  {
    RunSnoc(START, [], Iterate(1, 7));
    RunSnoc(START, [] + [Iterate(1, 7)], Enter(1));
    RunSnoc(START, [] + [Iterate(1, 7)] + [Enter(1)], Grant);
  }

  /** Its statement is iterated once more, and a `get` is called: the first row blocks it. */
  lemma IteratedTwice()
    ensures CanHang(RUNNING + [Iterate(2, 7)] + [IssueHandle(3, true)])
  {
    hide IsRun, After, CanHang;
    FirstRuns();
    RunSnoc(START, RUNNING, Iterate(2, 7));
    RunSnoc(START, RUNNING + [Iterate(2, 7)], IssueHandle(3, true));
    var s := After(START, RUNNING + [Iterate(2, 7)] + [IssueHandle(3, true)]);
    assert All(s) == [Iteration(1), Op(3, true)];
    HangsBy(RUNNING + [Iterate(2, 7)] + [IssueHandle(3, true)], 0, 1);
  }

  /** The first of two iterations of a statement ends, and clears what stood for the second. */
  const CLEARED: seq<Step> := RUNNING + [Iterate(2, 7)] + [Enter(2)] + [IterationEnds]

  lemma ClearedByAnother()
    ensures CanHang(CLEARED + [IssueHandle(3, true)])
  {
    hide IsRun, After, CanHang;
    FirstRuns();
    RunSnoc(START, RUNNING, Iterate(2, 7));
    RunSnoc(START, RUNNING + [Iterate(2, 7)], Enter(2));
    RunSnoc(START, RUNNING + [Iterate(2, 7)] + [Enter(2)], IterationEnds);
    RunSnoc(START, CLEARED, IssueHandle(3, true));
    var s := After(START, CLEARED + [IssueHandle(3, true)]);
    assert All(s) == [Iteration(2), Op(3, true)];
    HangsBy(CLEARED + [IssueHandle(3, true)], 0, 1);
  }

  /** An `iterate(sql)` of the handle is still being prepared: it is an iteration before a `get` makes its second visit. */
  lemma PreparedTooLate()
    ensures CanHang([] + [IterateHandle(1, 7)] + [IssueHandle(3, true)])
  {
    RunSnoc(START, [], IterateHandle(1, 7));
    RunSnoc(START, [] + [IterateHandle(1, 7)], IssueHandle(3, true));
    var s := After(START, [] + [IterateHandle(1, 7)] + [IssueHandle(3, true)]);
    assert All(s) == [Prepare(1), Op(3, true)];
    hide IsRun, After, CanHang;
    HangsBy([] + [IterateHandle(1, 7)] + [IssueHandle(3, true)], 0, 1);
  }

  // ---- One iteration of a statement at a time --------------------------------------------------------

  predicate Unfinished(s: State, it: nat) {
    it !in s.entered || Iteration(it) in All(s)
  }

  /** A statement is iterated only when no earlier iteration of it is left. */
  predicate OneAtATime(s: State, steps: seq<Step>)
    requires IsRun(s, steps)
    decreases |steps|
  {
    steps != [] ==> TakesTurns(s, steps[0]) && OneAtATime(Next(s, steps[0]), steps[1..])
  }

  predicate TakesTurns(s: State, step: Step) {
    step.Iterate? ==> forall it :: it in s.statementOf && s.statementOf[it] == step.statement ==> !Unfinished(s, it)
  }

  /** The iteration is what its statement's `cancelIterator` stands for. */
  predicate Cancellable(s: State, it: nat) {
    it in s.statementOf && s.statementOf[it] in s.cancels && s.cancels[s.statementOf[it]] == it
  }

  /** The iteration can be cancelled, or has been together with the close of its statement. */
  predicate InHandAt(s: State, it: nat) {
    it in s.statementOf && if s.statementOf[it] in s.closed then it in s.cancelled else Cancellable(s, it)
  }

  /** Every iteration that is left is in hand. */
  ghost predicate InHand(s: State) {
    && (forall it :: it in s.statementOf && Unfinished(s, it) ==> InHandAt(s, it))
    && ClosedApart(s)
  }

  /** Nothing closed is cancelled again, and the handle's own iterations have each a statement to themselves. */
  ghost predicate ClosedApart(s: State) {
    ClosedStay(s) && OneEach(s) && (forall c :: c in All(s) && c.Prepare? ==> PreparesHidden(s, c.it))
  }

  predicate PreparesHidden(s: State, it: nat) {
    it in s.statementOf && s.statementOf[it] in s.hidden
  }

  ghost predicate ClosedStay(s: State) {
    (forall statement :: statement in s.cancels ==> statement !in s.closed) && s.closed !! s.hidden
  }

  ghost predicate OneEach(s: State) {
    forall it, other :: it in s.statementOf && other in s.statementOf && s.statementOf[it] in s.hidden ==>
      s.statementOf[it] == s.statementOf[other] ==> it == other
  }

  lemma HolderIsThere(s: State)
    requires s.holder.Some?
    ensures s.holder.value in All(s)
  {
    AllBehind(s);
  }

  lemma StepKeepsClosed(s: State, step: Step)
    requires ClosedApart(s) && Enabled(s, step)
    ensures ClosedStay(Next(s, step))
  {
    if s.holder.Some? { HolderIsThere(s); }
    hide All, OneEach;
  }

  lemma StepKeepsEach(s: State, step: Step)
    requires OneEach(s) && Enabled(s, step)
    ensures OneEach(Next(s, step))
  {
  }

  /** Whose an iteration is does not change, and what is hidden stays so. */
  lemma StatementsStay(s: State, step: Step, it: nat)
    requires Enabled(s, step) && it in s.statementOf
    ensures it in Next(s, step).statementOf && Next(s, step).statementOf[it] == s.statementOf[it]
    ensures s.hidden <= Next(s, step).hidden
  {
  }

  /** Only `iterate(sql)` of the handle begins to prepare. */
  lemma PreparedBefore(s: State, step: Step, c: Caller)
    requires Enabled(s, step) && c in All(Next(s, step)) && c.Prepare?
    ensures c in All(s) || (step.IterateHandle? && c == Prepare(step.it))
  {
    AllHas(s, step, c);
    hide All, Next;
  }

  lemma PreparingIsHidden(s: State, step: Step, c: Caller)
    requires ClosedApart(s) && Enabled(s, step) && c in All(Next(s, step)) && c.Prepare?
    ensures PreparesHidden(Next(s, step), c.it)
  {
    PreparedBefore(s, step, c);
    hide All, ClosedStay, OneEach;
    if c in All(s) {
      StatementsStay(s, step, c.it);
      hide Next;
    }
  }

  lemma StepKeepsApart(s: State, step: Step)
    requires Inv(s) && ClosedApart(s) && Enabled(s, step)
    ensures ClosedApart(Next(s, step))
  {
    StepKeepsClosed(s, step);
    StepKeepsEach(s, step);
    forall c | c in All(Next(s, step)) && c.Prepare? ensures PreparesHidden(Next(s, step), c.it) {
      PreparingIsHidden(s, step, c);
    }
    hide All, Inv, Next, Enabled, ClosedStay, OneEach, PreparesHidden;
  }

  /** What is left after a step was left before, or is newly made. */
  lemma UnknownIsAway(s: State, it: nat)
    requires Known(s) && it !in s.statementOf
    ensures Iteration(it) !in All(s)
  {
    assert Iterative(Iteration(it));
  }

  lemma LeftBefore(s: State, step: Step, it: nat)
    requires Inv(s) && Enabled(s, step) && it in Next(s, step).statementOf && Unfinished(Next(s, step), it)
    ensures (it in s.statementOf && Unfinished(s, it)) || step == Iterate(it, Next(s, step).statementOf[it])
         || (step.Leave? && s.holder == Some(Prepare(it)))
  {
    if it in Next(s, step).entered { AllHas(s, step, Iteration(it)); }
    if it !in s.statementOf { UnknownIsAway(s, it); }
    hide All, AtGateOnce, CancelsOwn, StandsUncancelled, ComeByHandle, Known;
  }

  /** Whoever has left the gate for good is not there any more. */
  lemma GoneIsGone(s: State, s': State, it: nat)
    requires AtGateOnce(All(s)) && s.holder.Some? && Iterative(s.holder.value) && s.holder.value.it == it
    requires s'.holder == None && s'.queue == s.queue && s'.coming == s.coming
    ensures Iteration(it) !in All(s')
  {
    AllBehind(s);
    HeadIsApart(s.holder.value, s.queue + s.coming);
    assert All(s') == s.queue + s.coming;
    hide AtGateOnce;
  }

  /** The end of another iteration clears nothing that stands for this one. */
  lemma FinishedKeepsInHand(s: State, it: nat, other: nat)
    requires ClosedStay(s) && InHandAt(s, it) && InHandAt(s, other) && it != other
    ensures InHandAt(Finished(s, other), it)
  {
  }

  lemma CancelKeepsInHand(s: State, statement: nat, it: nat)
    requires Enabled(s, Close(statement)) && InHandAt(s, it)
    ensures InHandAt(Next(s, Close(statement)), it)
  {
  }

  lemma IterateKeepsInHand(s: State, step: Step, it: nat)
    requires Enabled(s, step) && step.Iterate? && TakesTurns(s, step)
    requires it == step.it || (Unfinished(s, it) && InHandAt(s, it))
    ensures InHandAt(Next(s, step), it)
  {
    hide Unfinished;
  }

  lemma LeaveKeepsInHand(s: State, ok: bool, it: nat)
    requires Inv(s) && ClosedApart(s) && Enabled(s, Leave(ok)) && Unfinished(Next(s, Leave(ok)), it)
    requires InHandAt(s, it) || s.holder == Some(Prepare(it))
    ensures InHandAt(Next(s, Leave(ok)), it)
  {
    HolderIsThere(s);
    if s.holder == Some(Prepare(it)) && !ok { GoneIsGone(s, Next(s, Leave(ok)), it); }
    hide All, AtGateOnce, CancelsOwn;
  }

  lemma StaysInHand(s: State, step: Step, it: nat)
    requires Inv(s) && InHand(s) && Enabled(s, step) && !step.Settle? && TakesTurns(s, step)
    requires it in Next(s, step).statementOf && Unfinished(Next(s, step), it)
    ensures InHandAt(Next(s, step), it)
  {
    LeftBefore(s, step, it);
    if s.holder.Some? { HolderIsThere(s); }
    if Iterates(s) {
      var other := s.holder.value.it;
      assert Unfinished(s, other) && other in s.statementOf && other in s.entered;
      if Next(s, step).holder == None { GoneIsGone(s, Next(s, step), other); }
    }
    hide All, Inv, Unfinished, TakesTurns, OneEach, PreparesHidden;
    match step
    case Iterate(_, _) => IterateKeepsInHand(s, step, it);
    case Close(statement) => CancelKeepsInHand(s, statement, it);
    case Leave(ok) => LeaveKeepsInHand(s, ok, it);
    case Return(other) => FinishedKeepsInHand(s, it, other);
    case IterationEnds => FinishedKeepsInHand(s, it, s.holder.value.it);
    case Row => if s.holder.value.it in s.cancelled { FinishedKeepsInHand(s, it, s.holder.value.it); }
    case _ =>
  }

  lemma StepKeepsInHand(s: State, step: Step)
    requires Inv(s) && InHand(s) && Enabled(s, step) && !step.Settle? && TakesTurns(s, step)
    ensures InHand(Next(s, step))
  {
    hide Inv, ClosedApart, Unfinished, InHandAt, Enabled, Next, TakesTurns;
    StepKeepsApart(s, step);
    forall it | it in Next(s, step).statementOf && Unfinished(Next(s, step), it) ensures InHandAt(Next(s, step), it) {
      StaysInHand(s, step, it);
    }
  }

  lemma {:induction false} RunKeepsInHand(s: State, steps: seq<Step>)
    requires Inv(s) && InHand(s) && IsRun(s, steps) && OneAtATime(s, steps) && !After(s, steps).draining
    ensures InHand(After(s, steps))
    decreases |steps|
  {
    if steps != [] {
      StaysDraining(Next(s, steps[0]), steps[1..]);
      StepKeepsInv(s, steps[0]);
      StepKeepsInHand(s, steps[0]);
      RunKeepsInHand(Next(s, steps[0]), steps[1..]);
    }
  }

  lemma {:induction false} StaysDraining(s: State, steps: seq<Step>)
    requires IsRun(s, steps)
    ensures s.draining ==> After(s, steps).draining
    decreases |steps|
  {
    if steps != [] { StaysDraining(Next(s, steps[0]), steps[1..]); }
  }

  /**
   Callbacks that iterate each statement once at a time, and end when no `iterate(sql)`
   of the handle is still being prepared, have a drain that ends.
   */
  lemma OneAtATimeDrains(before: seq<Step>)
    requires IsRun(START, before) && Enabled(After(START, before), Settle) && OneAtATime(START, before)
    requires forall c :: c in All(After(START, before)) ==> !c.Prepare?
    ensures MustDrain(Next(After(START, before), Settle))
  {
    hide IsRun, After, OneAtATime, MustDrain, Exposed, AtGateOnce, Next;
    var s := After(START, before);
    StartIsInHand();
    RunKeepsInv(START, before);
    RunKeepsInHand(START, before);
    forall c | c in All(s) && c.Iteration? ensures c.it in Reached(s) {
      InHandIsReached(s, c.it);
    }
    ReachedIsUnexposed(All(s), |Line(s)|, Reached(s));
    DrainEndsIff(before);
  }

  lemma StartIsInHand()
    ensures Inv(START) && InHand(START)
  {
  }

  lemma InHandIsReached(s: State, it: nat)
    requires Inv(s) && InHand(s) && Iteration(it) in All(s)
    ensures it in Reached(s)
  {
    assert Unfinished(s, it);
    assert it in s.statementOf;
    hide All, AtGateOnce;
  }

  lemma ReachedIsUnexposed(all: seq<Caller>, here: nat, reached: set<nat>)
    requires forall c :: c in all ==> !c.Prepare? && (c.Iteration? ==> c.it in reached)
    ensures !Exposed(all, here, reached)
  {
  }

  // ---- The context and its statements -----------------------------------------------------------------

  class TransactionContext {
    var draining: bool
    var holder: Option<Caller>
    var suspended: bool
    var queue: seq<Caller>
    var coming: seq<Caller>
    var statementOf: map<nat, nat>
    var entered: set<nat>
    var cancelled: set<nat>
    var cancels: map<nat, nat>
    var closed: set<nat>
    var hidden: set<nat>

    constructor ()
      ensures Now() == START
    {
      draining, holder, suspended, queue, coming := false, None, false, [], [];
      statementOf, entered, cancelled, cancels, closed, hidden := map[], {}, {}, map[], {}, {};
    }

    ghost function Now(): State
      reads this
    {
      State(draining, holder, suspended, queue, coming, statementOf, entered, cancelled, cancels, closed, hidden)
    }

    /** `iterate` of a statement: the new generator takes the place of any other. */
    method Iterate(it: nat, statement: nat)
      requires Enabled(Now(), Step.Iterate(it, statement))
      modifies this
      ensures Now() == Next(old(Now()), Step.Iterate(it, statement))
    {
      statementOf := statementOf[it := statement];
      cancels := cancels[statement := it];
    }

    /** The visit of an operation or a preparation ends with its release of the gate. */
    method LeaveGate(ok: bool)
      requires Enabled(Now(), Leave(ok))
      modifies this
      ensures Now() == Next(old(Now()), Leave(ok))
    {
      var caller := holder.value;
      holder := None;
      if ok && caller.Op? && caller.again {
        queue := queue + [Op(caller.op, false)];
      }
      if ok && caller.Prepare? && caller.it in statementOf {
        cancels := cancels[statementOf[caller.it] := caller.it];
        queue := queue + [Iteration(caller.it)];
      }
    }

    /** The generator's finally block. */
    method Finish(it: nat)
      requires HoldsGate(Now(), it) && it in statementOf
      modifies this
      ensures Now() == Finished(old(Now()), it)
    {
      cancels := cancels - {statementOf[it]};
      holder, suspended := None, false;
    }

    /** `cancelIteration` of one statement. */
    method CancelIteration(statement: nat)
      modifies this
      ensures Now() == Cancel(old(Now()), {statement})
    {
      if statement in cancels {
        var it := cancels[statement];
        cancels := cancels - {statement};
        cancelled := cancelled + {it};
        if suspended && holder == Some(Iteration(it)) {
          holder, suspended := None, false;
        }
      }
    }

    /** `settle` up to its await. */
    method SettleAll()
      requires Enabled(Now(), Settle)
      modifies this
      ensures Now() == Next(old(Now()), Settle)
    {
      var statements := cancels.Keys;
      ghost var start, all := Now(), cancels.Keys;
      ghost var done: set<nat> := {};
      CancelsNone(start);
      hide Cancel, CancelledBy;
      while statements != {}
        invariant done + statements == all
        invariant Now() == Cancel(start, done)
        decreases |statements|
      {
        var statement :| statement in statements;
        CancelsAdd(start, done, statement);
        CancelIteration(statement);
        statements, done := statements - {statement}, done + {statement};
      }
      assert done == all;
      draining := true;
    }
  }

  lemma CancelsNone(s: State)
    ensures Cancel(s, {}) == s
  {
    assert s.cancels - {} == s.cancels;
  }

  lemma CancelsAdd(s: State, done: set<nat>, statement: nat)
    ensures Cancel(Cancel(s, done), {statement}) == Cancel(s, done + {statement})
  {
  }
}
