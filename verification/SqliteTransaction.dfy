/**
 Transactions on the one native connection: the BEGIN .. COMMIT-or-ROLLBACK
 bracket of `sqliteTransaction` and its interleavings with other callers of the
 same connection. The native database is a list of committed writes plus the
 writes of an open transaction.
 */
module SqliteTransaction {
  import opened FifoGate
  import opened Options

  type Write = int

  /** A rejection value. `throw undefined` is legal JavaScript; it is told apart. */
  datatype Thrown = Undefined | Null | Error(code: int)

  const COMMIT_FAILED := Error(1)
  const ROLLBACK_FAILED := Error(2)
  const UNUSABLE := Error(3)
  const CANCELLED := Error(4)

  datatype Outcome = Returned | Threw(value: Thrown)

  // ---- The last segment: settle, COMMIT or ROLLBACK -----------------------------------------

  /** The native connection and whether `assertUsable` still accepts callers. */
  datatype Conn = Conn(usable: bool, inTransaction: bool, working: seq<Write>, committed: seq<Write>)

  /**
   What the engine answers: whether COMMIT succeeds on an open transaction,
   whether a failing COMMIT ends the transaction, whether ROLLBACK succeeds.
   */
  datatype Answers = Answers(commitOk: bool, commitEnds: bool, rollbackOk: bool)

  /** `failure ??= error` for the drained operations' recorded failure. */
  function Settled(failure: Thrown, drained: Thrown): Thrown {
    if drained != Undefined && (failure == Undefined || failure == Null) then drained else failure
  }

  predicate CommitTried(begun: bool, failure: Thrown, drained: Thrown) {
    begun && Settled(failure, drained) == Undefined
  }

  predicate CommitSucceeds(c: Conn, a: Answers) {
    c.inTransaction && a.commitOk
  }

  function RolledBack(c: Conn): Conn {
    c.(inTransaction := false, working := [])
  }

  /** The connection after the last segment of a run, and the run's outcome. */
  function Finished(c: Conn, begun: bool, failure: Thrown, drained: Thrown, a: Answers): (Conn, Outcome) {
    var settled := Settled(failure, drained);
    if CommitTried(begun, failure, drained) && CommitSucceeds(c, a) then
      (Conn(c.usable, false, [], c.committed + c.working), Returned)
    else if settled == Undefined && !begun then (c, Returned)
    else
      var c' := if settled == Undefined && a.commitEnds then RolledBack(c) else c;
      var thrown := if settled == Undefined then COMMIT_FAILED else settled;
      if !begun || !c'.inTransaction then (c', Threw(thrown))
      else if a.rollbackOk then (RolledBack(c'), Threw(thrown))
      else (c'.(usable := false), Threw(ROLLBACK_FAILED))
  }

  class Connection {
    var usable: bool
    var inTransaction: bool
    var working: seq<Write>
    var committed: seq<Write>

    function State(): Conn
      reads this
    {
      Conn(usable, inTransaction, working, committed)
    }

    constructor ()
      ensures State() == Conn(true, false, [], [])
    {
      usable, inTransaction, working, committed := true, false, [], [];
    }

    /** The native COMMIT: without an open transaction it is an error. */
    method Commit(a: Answers) returns (ok: bool)
      modifies this
      ensures ok <==> CommitSucceeds(old(State()), a)
      ensures State() == if ok then old(Conn(usable, false, [], committed + working))
                         else if a.commitEnds then RolledBack(old(State())) else old(State())
    {
      if inTransaction && a.commitOk {
        committed, working, inTransaction := committed + working, [], false;
        return true;
      }
      if a.commitEnds {
        working, inTransaction := [], false;
      }
      return false;
    }

    /** Rolls an open transaction back; a failing ROLLBACK taints the connection. */
    method Rollback(begun: bool, failure: Thrown, a: Answers) returns (thrown: Thrown)
      modifies this
      ensures thrown == if begun && old(inTransaction) && !a.rollbackOk then ROLLBACK_FAILED else failure
      ensures State() == if !begun || !old(inTransaction) then old(State())
                         else if a.rollbackOk then RolledBack(old(State())) else old(State()).(usable := false)
    {
      if !begun || !inTransaction {
        return failure;
      }
      if a.rollbackOk {
        working, inTransaction := [], false;
        return failure;
      }
      usable := false;
      return ROLLBACK_FAILED;
    }

    /**
     Everything after the drain of one run: no await separates these native calls
     from the release of the gate.
     */
    method Finish(begun: bool, callbackFailure: Thrown, drained: Thrown, a: Answers) returns (outcome: Outcome)
      modifies this
      ensures (State(), outcome) == Finished(old(State()), begun, callbackFailure, drained, a)
    {
      var failure := callbackFailure;
      if drained != Undefined {
        if failure == Undefined || failure == Null {
          failure := drained;
        }
      }
      if failure == Undefined && begun {
        var ok := Commit(a);
        if !ok {
          failure := COMMIT_FAILED;
        }
      }
      if failure != Undefined {
        failure := Rollback(begun, failure, a);
        return Threw(failure);
      }
      return Returned;
    }
  }

  /**
   A begun run returns exactly when its COMMIT was tried and succeeded. One that never
   began changes nothing; it returns only if what kept it from beginning was `undefined`.
   */
  lemma ReturnsIffCommitted(c: Conn, begun: bool, failure: Thrown, drained: Thrown, a: Answers)
    ensures var (c', outcome) := Finished(c, begun, failure, drained, a);
            && (begun ==> (outcome == Returned <==> CommitTried(begun, failure, drained) && CommitSucceeds(c, a)))
            && (!begun ==> c' == c && (outcome == Returned <==> Settled(failure, drained) == Undefined))
            && (begun && outcome == Returned ==> c'.committed == c.committed + c.working)
            && (outcome != Returned ==> c'.committed == c.committed)
            && (begun || !c.inTransaction ==> !c'.inTransaction || !c'.usable)
  {
  }

  // ---- When COMMIT is tried -------------------------------------------------------------------

  /** How the callback ended, and the rejections of its operations in settling order. */
  datatype Body = Body(callback: Outcome, rejections: seq<Thrown>)

  function FailureOf(b: Body): Thrown {
    if b.callback.Threw? then b.callback.value else Undefined
  }

  /** PendingOperations keeps the rejection that settled last. */
  function DrainedOf(b: Body): Thrown {
    if b.rejections == [] then Undefined else b.rejections[|b.rejections| - 1]
  }

  /** The documented rule: commit only if the callback returned and nothing it issued rejected. */
  predicate Clean(b: Body) {
    b.callback == Returned && b.rejections == []
  }

  /** Something rejected, but the callback and the last rejected operation, as far as they did, with `undefined`. */
  predicate RejectsWithUndefined(b: Body) {
    && (b.callback.Threw? || b.rejections != [])
    && (b.callback.Threw? ==> b.callback.value == Undefined)
    && (b.rejections != [] ==> b.rejections[|b.rejections| - 1] == Undefined)
  }

  /**
   COMMIT is tried exactly for clean bodies, save for those rejections: `failure`
   doubles as the flag, so a body that rejects with `undefined` is committed.
   */
  lemma CommitRule(b: Body)
    ensures (CommitTried(true, FailureOf(b), DrainedOf(b)) <==> Clean(b)) <==> !RejectsWithUndefined(b)
  {
  }

  /** A callback that rejects with `undefined` has its writes committed, and the call resolves. */
  lemma UndefinedRejectionCommits()
    ensures var b := Body(Threw(Undefined), []);
            var c := Conn(true, true, [7], []);
            !Clean(b) &&
            Finished(c, true, FailureOf(b), DrainedOf(b), Answers(true, false, true)) == (Conn(true, false, [], [7]), Returned)
  {
    assert [] + [7] == [7];
  }

  // ---- SQL that opens and ends transactions ---------------------------------------------------------

  /** What an executed SQL statement does natively; callers may execute any of them. */
  datatype Sql = Insert(write: Write) | BeginTx | CommitTx | RollbackTx

  /** Whether the engine executes it without an error. */
  predicate Accepts(c: Conn, sql: Sql) {
    match sql
    case Insert(_) => true
    case BeginTx => !c.inTransaction
    case CommitTx => c.inTransaction
    case RollbackTx => c.inTransaction
  }

  function Native(c: Conn, sql: Sql): Conn {
    match sql
    case Insert(w) => if c.inTransaction then c.(working := c.working + [w]) else c.(committed := c.committed + [w])
    case BeginTx => c.(inTransaction := true)
    case CommitTx => Conn(c.usable, false, [], c.committed + c.working)
    case RollbackTx => RolledBack(c)
  }

  /** What it makes durable at that instant. */
  function Instant(c: Conn, sql: Sql): seq<Write> {
    match sql
    case Insert(w) => if c.inTransaction then [] else [w]
    case BeginTx => []
    case CommitTx => c.working
    case RollbackTx => []
  }

  // ---- Interleaved runs ---------------------------------------------------------------------------

  /** A transaction, or a plain statement outside any bracket. */
  datatype Kind = Transaction | Statement

  datatype Phase =
    | Waiting           // queued at the gate
    | Entered           // holds the gate: WAL activation and BEGIN, or the plain statement
    | InCallback        // BEGIN succeeded, the callback runs
    | Settling          // the callback has ended, accepted operations drain
    | Ended(outcome: Outcome)

  /** One caller. `pending` counts accepted operations that have not settled. */
  datatype Run = Run(kind: Kind, phase: Phase, begun: bool, failure: Thrown, drained: Thrown, pending: nat)

  /** Whose a write is: one run's, or that of the plain statements, which share whatever transaction they open. */
  datatype Owner = Of(run: nat) | Plain

  /** Writes that became durable at one instant. */
  datatype Entry = Entry(owner: Owner, writes: seq<Write>)

  /** Runs are numbered in the order they reached the gate: the run number is its ticket. */
  datatype Engine = Engine(lock: Lock, conn: Conn, runs: seq<Run>, log: seq<Entry>)

  const START := Engine(Lock(None, []), Conn(true, false, [], []), [], [])

  function Fresh(kind: Kind): Run {
    Run(kind, Waiting, false, Undefined, Undefined, 0)
  }

  datatype Action =
    | Request(kind: Kind)
    | Cancel(run: nat)
    | Grant(run: nat)
    | BeginFails(run: nat, error: Thrown)
    | Begin(run: nat)
    | StatementExecutes(run: nat, sql: Sql)
    | StatementBreaks(run: nat)         // the engine ends an open transaction on its own
    | StatementEnds(run: nat, outcome: Outcome)
    | Issue(run: nat)
    | Execute(run: nat, sql: Sql)       // by an operation of the callback, tracked or an iterator's
    | Break(run: nat)                   // the engine ends the transaction on its own
    | Resolve(run: nat)
    | Reject(run: nat, error: Thrown)
    | CallbackReturns(run: nat)
    | CallbackThrows(run: nat, error: Thrown)
    | Finish(run: nat, answers: Answers)

  predicate InPhase(e: Engine, r: nat, kind: Kind, phase: Phase) {
    r < |e.runs| && e.runs[r].kind == kind && e.runs[r].phase == phase
  }

  predicate HandleOpen(e: Engine, r: nat) {
    InPhase(e, r, Transaction, InCallback) || InPhase(e, r, Transaction, Settling)
  }

  predicate Can(e: Engine, a: Action) {
    match a
    case Request(_) => true
    case Cancel(r) => r < |e.runs| && e.runs[r].phase == Waiting
    case Grant(r) => e.lock.holder == None && e.lock.queue != [] && e.lock.queue[0] == r
    case BeginFails(r, _) => InPhase(e, r, Transaction, Entered)
    case Begin(r) => InPhase(e, r, Transaction, Entered) && e.conn.usable && !e.conn.inTransaction
    case StatementExecutes(r, sql) => InPhase(e, r, Statement, Entered) && e.conn.usable && Accepts(e.conn, sql)
    case StatementBreaks(r) => InPhase(e, r, Statement, Entered) && e.conn.usable
    case StatementEnds(r, _) => InPhase(e, r, Statement, Entered)
    case Issue(r) => HandleOpen(e, r)
    case Execute(r, sql) => HandleOpen(e, r) && Accepts(e.conn, sql)
    case Break(r) => HandleOpen(e, r)
    case Resolve(r) => HandleOpen(e, r) && e.runs[r].pending > 0
    case Reject(r, _) => HandleOpen(e, r) && e.runs[r].pending > 0
    case CallbackReturns(r) => InPhase(e, r, Transaction, InCallback)
    case CallbackThrows(r, _) => InPhase(e, r, Transaction, InCallback)
    case Finish(r, _) => InPhase(e, r, Transaction, Settling) && e.runs[r].pending == 0
  }

  function With(e: Engine, r: nat, run: Run): Engine
    requires r < |e.runs|
  {
    e.(runs := e.runs[r := run])
  }

  /** The run is over: its `finally` block releases the gate. */
  function Leave(e: Engine, r: nat, outcome: Outcome): Engine
    requires r < |e.runs|
  {
    With(e, r, e.runs[r].(phase := Ended(outcome))).(lock := Lock(None, e.lock.queue))
  }

  /** An entry, if there is anything to enter. */
  function Entries(o: Owner, writes: seq<Write>): seq<Entry> {
    if writes == [] then [] else [Entry(o, writes)]
  }

  function Ran(e: Engine, o: Owner, sql: Sql): Engine {
    e.(conn := Native(e.conn, sql), log := e.log + Entries(o, Instant(e.conn, sql)))
  }

  function Do(e: Engine, a: Action): Engine
    requires Can(e, a)
  {
    match a
    case Request(kind) =>
      if e.conn.usable then e.(runs := e.runs + [Fresh(kind)], lock := Lock(e.lock.holder, e.lock.queue + [|e.runs|]))
      else e.(runs := e.runs + [Fresh(kind).(phase := Ended(Threw(UNUSABLE)))])
    case Cancel(r) =>
      With(e, r, e.runs[r].(phase := Ended(Threw(CANCELLED)))).(lock := Lock(e.lock.holder, Without(e.lock.queue, r)))
    case Grant(r) =>
      if r < |e.runs| then With(e, r, e.runs[r].(phase := Entered)).(lock := Lock(Some(r), e.lock.queue[1..])) else e
    case BeginFails(r, error) =>
      Leave(e, r, if error == Undefined then Returned else Threw(error))
    case Begin(r) =>
      With(e, r, e.runs[r].(phase := InCallback, begun := true)).(conn := e.conn.(inTransaction := true))
    case StatementExecutes(r, sql) => Ran(e, Plain, sql)
    case StatementBreaks(r) => e.(conn := RolledBack(e.conn))
    case StatementEnds(r, outcome) => Leave(e, r, outcome)
    case Issue(r) => With(e, r, e.runs[r].(pending := e.runs[r].pending + 1))
    case Execute(r, sql) => Ran(e, Of(r), sql)
    case Break(r) => e.(conn := RolledBack(e.conn))
    case Resolve(r) => With(e, r, e.runs[r].(pending := e.runs[r].pending - 1))
    case Reject(r, error) => With(e, r, e.runs[r].(pending := e.runs[r].pending - 1, drained := error))
    case CallbackReturns(r) => With(e, r, e.runs[r].(phase := Settling))
    case CallbackThrows(r, error) => With(e, r, e.runs[r].(phase := Settling, failure := error))
    case Finish(r, answers) =>
      var run := e.runs[r];
      var (conn, outcome) := Finished(e.conn, run.begun, run.failure, run.drained, answers);
      var e' := Leave(e, r, outcome).(conn := conn);
      if outcome == Returned then e'.(log := e.log + Entries(Of(r), e.conn.working)) else e'
  }

  predicate IsHistory(e: Engine, actions: seq<Action>)
    decreases |actions|
  {
    actions == [] || (Can(e, actions[0]) && IsHistory(Do(e, actions[0]), actions[1..]))
  }

  function After(e: Engine, actions: seq<Action>): Engine
    requires IsHistory(e, actions)
    decreases |actions|
  {
    if actions == [] then e else After(Do(e, actions[0]), actions[1..])
  }

  // ---- What one owner's own actions make durable -------------------------------------------------

  /**
   The books of one owner, kept from its own actions alone: the writes it made durable
   by itself, instant by instant, and those of the transaction it has open, if any.
   */
  datatype Account = Account(own: seq<seq<Write>>, open: Option<seq<Write>>)

  const EMPTY := Account([], None)

  function OpenWrites(acc: Account): seq<Write> {
    if acc.open.Some? then acc.open.value else []
  }

  function Once(writes: seq<Write>): seq<seq<Write>> {
    if writes == [] then [] else [writes]
  }

  function Booked(acc: Account, sql: Sql): Account {
    match sql
    case Insert(w) =>
      if acc.open.Some? then acc.(open := Some(acc.open.value + [w])) else acc.(own := acc.own + [[w]])
    case BeginTx => acc.(open := Some([]))
    case CommitTx => Account(acc.own + Once(OpenWrites(acc)), None)
    case RollbackTx => acc.(open := None)
  }

  /** The statement an action executes for this owner, if it does. */
  function SqlOf(a: Action, o: Owner): Option<Sql> {
    if a.Execute? && o == Of(a.run) then Some(a.sql)
    else if a.StatementExecutes? && o == Plain then Some(a.sql)
    else None
  }

  function Told(acc: Account, a: Action, o: Owner): Account {
    if SqlOf(a, o).Some? then Booked(acc, SqlOf(a, o).value)
    else if a.Begin? && o == Of(a.run) then acc.(open := Some([]))
    else if (a.Break? && o == Of(a.run)) || (a.StatementBreaks? && o == Plain) then acc.(open := None)
    else acc
  }

  function Accounted(acc: Account, actions: seq<Action>, o: Owner): Account
    decreases |actions|
  {
    if actions == [] then acc else Accounted(Told(acc, actions[0], o), actions[1..], o)
  }

  // ---- The invariant ------------------------------------------------------------------------------------

  predicate Active(run: Run) {
    run.phase == Entered || run.phase == InCallback || run.phase == Settling
  }

  /** The gate's holder is the one active run; its queue is the waiting runs in order. */
  ghost predicate GateInv(e: Engine) {
    && (forall r: nat :: r < |e.runs| ==> (Active(e.runs[r]) <==> e.lock.holder == Some(r)))
    && (e.lock.holder.Some? ==> e.lock.holder.value < |e.runs|)
    && Ascends(e.lock.queue)
    && (forall r: nat :: r in e.lock.queue <==> r < |e.runs| && e.runs[r].phase == Waiting)
  }

  predicate BracketOpen(run: Run) {
    run.phase == InCallback || run.phase == Settling
  }

  /** The gate's holder is inside its bracket. */
  predicate BracketHeld(e: Engine) {
    e.lock.holder.Some? && e.lock.holder.value < |e.runs| && BracketOpen(e.runs[e.lock.holder.value])
  }

  ghost predicate NativeInv(e: Engine) {
    && (!e.conn.inTransaction ==> e.conn.working == [])
    && (BracketHeld(e) ==> e.conn.usable)
    && (forall r: nat :: r < |e.runs| && BracketOpen(e.runs[r]) ==> e.runs[r].kind == Transaction)
    && (forall r: nat :: r < |e.runs| && (e.runs[r].phase == Waiting || e.runs[r].phase == Entered) ==> !e.runs[r].begun)
    && (forall r: nat :: r < |e.runs| && BracketOpen(e.runs[r]) ==> e.runs[r].begun)
  }

  function Flatten(log: seq<Entry>): seq<Write> {
    if log == [] then [] else Flatten(log[..|log| - 1]) + log[|log| - 1].writes
  }

  /** The durable writes of one owner, instant by instant. */
  function Durable(log: seq<Entry>, o: Owner): seq<seq<Write>> {
    if log == [] then []
    else Durable(log[..|log| - 1], o) + (if log[|log| - 1].owner == o then [log[|log| - 1].writes] else [])
  }

  lemma EntriesGrow(log: seq<Entry>, o: Owner, writes: seq<Write>, p: Owner)
    ensures Flatten(log + Entries(o, writes)) == Flatten(log) + writes
    ensures Durable(log + Entries(o, writes), p) == Durable(log, p) + if p == o then Once(writes) else []
  {
    if writes == [] {
      assert log + [] == log;
      assert Flatten(log) + [] == Flatten(log);
      assert Durable(log, p) + [] == Durable(log, p);
    } else {
      assert (log + [Entry(o, writes)])[..|log|] == log;
      assert Durable(log, p) + [] == Durable(log, p);
    }
  }

  /** COMMIT of the bracket has made the run's open transaction durable. */
  predicate CommittedAtEnd(e: Engine, o: Owner) {
    o.Of? && o.run < |e.runs| && e.runs[o.run].begun && e.runs[o.run].phase == Ended(Returned)
  }

  /** What is durable of an owner is what its account says, and the rest of a run that returned. */
  ghost predicate DurableIs(e: Engine, o: Owner, acc: Account) {
    Durable(e.log, o) == acc.own + if CommittedAtEnd(e, o) then Once(OpenWrites(acc)) else []
  }

  /** The owner's open transaction is the connection's. */
  predicate OpenIs(c: Conn, acc: Account) {
    (acc.open.Some? <==> c.inTransaction) && c.working == OpenWrites(acc)
  }

  /** How an owner's account agrees with the engine. */
  ghost predicate Books(e: Engine, o: Owner, acc: Account) {
    && DurableIs(e, o, acc)
    && match o {
         case Of(r) =>
           && (r >= |e.runs| || e.runs[r].phase == Waiting || e.runs[r].phase == Entered ==> acc == EMPTY)
           && (r < |e.runs| && BracketOpen(e.runs[r]) ==> OpenIs(e.conn, acc))
         case Plain =>
           && (BracketHeld(e) ==> acc.open == None)
           && (!BracketHeld(e) && e.conn.usable ==> OpenIs(e.conn, acc))
       }
  }

  ghost predicate Inv(e: Engine) {
    GateInv(e) && NativeInv(e) && e.conn.committed == Flatten(e.log)
  }

  lemma RequestKeepsGate(e: Engine, kind: Kind)
    requires GateInv(e)
    ensures GateInv(Do(e, Request(kind)))
  {
    if e.conn.usable { AscendsSnoc(e.lock.queue, |e.runs|); }
  }

  lemma CancelKeepsGate(e: Engine, r: nat)
    requires GateInv(e) && Can(e, Cancel(r))
    ensures GateInv(Do(e, Cancel(r)))
  {
    WithoutIs(e.lock.queue, r);
  }

  lemma GrantKeepsGate(e: Engine, r: nat)
    requires GateInv(e) && Can(e, Grant(r))
    ensures GateInv(Do(e, Grant(r)))
  {
    assert r in e.lock.queue;
    assert forall x: nat :: x in e.lock.queue ==> r <= x;
    WithoutIs(e.lock.queue, r);
    WithoutHead(e.lock.queue, r);
  }

  /** A run that was inside leaves and frees the gate. */
  lemma LeaveKeepsGate(e: Engine, r: nat, e': Engine)
    requires GateInv(e) && r < |e.runs| && Active(e.runs[r])
    requires |e'.runs| == |e.runs| && e'.runs[r].phase.Ended?
    requires forall t: nat :: t < |e.runs| && t != r ==> e'.runs[t] == e.runs[t]
    requires e'.lock == Lock(None, e.lock.queue)
    ensures GateInv(e')
  {
  }

  /** A run that is inside stays inside. */
  lemma StayKeepsGate(e: Engine, r: nat, e': Engine)
    requires GateInv(e) && r < |e.runs| && Active(e.runs[r])
    requires |e'.runs| == |e.runs| && Active(e'.runs[r])
    requires forall t: nat :: t < |e.runs| && t != r ==> e'.runs[t] == e.runs[t]
    requires e'.lock == e.lock
    ensures GateInv(e')
  {
  }

  lemma ActionKeepsGate(e: Engine, a: Action)
    requires GateInv(e) && Can(e, a)
    ensures GateInv(Do(e, a))
  {
    hide GateInv;
    match a
    case Request(kind) => RequestKeepsGate(e, kind);
    case Cancel(r) => CancelKeepsGate(e, r);
    case Grant(r) => GrantKeepsGate(e, r);
    case BeginFails(r, _) => LeaveKeepsGate(e, r, Do(e, a));
    case StatementEnds(r, _) => LeaveKeepsGate(e, r, Do(e, a));
    case Finish(r, _) => LeaveKeepsGate(e, r, Do(e, a));
    case _ => StayKeepsGate(e, a.run, Do(e, a));
  }

  lemma ActionKeepsNative(e: Engine, a: Action)
    requires GateInv(e) && NativeInv(e) && Can(e, a)
    ensures NativeInv(Do(e, a))
  {
    hide Ascends, Without;
    if a.Grant? { assert a.run in e.lock.queue; }
    if a.Finish? { ReturnsIffCommitted(e.conn, true, e.runs[a.run].failure, e.runs[a.run].drained, a.answers); }
  }

  lemma NativeCommits(c: Conn, sql: Sql)
    ensures Native(c, sql).committed == c.committed + Instant(c, sql)
  {
  }

  lemma ActionKeepsFlat(e: Engine, a: Action)
    requires NativeInv(e) && e.conn.committed == Flatten(e.log) && Can(e, a)
    ensures Do(e, a).conn.committed == Flatten(Do(e, a).log)
  {
    assert a.Finish? ==> e.runs[a.run].begun;
    hide NativeInv, Flatten, Entries, Native, Instant, Finished, Accepts;
    match a
    case StatementExecutes(_, sql) =>
      NativeCommits(e.conn, sql);
      EntriesGrow(e.log, Plain, Instant(e.conn, sql), Plain);
    case Execute(r, sql) =>
      NativeCommits(e.conn, sql);
      EntriesGrow(e.log, Of(r), Instant(e.conn, sql), Plain);
    case Finish(r, answers) =>
      ReturnsIffCommitted(e.conn, true, e.runs[r].failure, e.runs[r].drained, answers);
      EntriesGrow(e.log, Of(r), e.conn.working, Plain);
    case _ =>
  }

  /** While a run is inside its bracket it holds the gate. */
  lemma InsideHolds(e: Engine, r: nat)
    requires GateInv(e) && r < |e.runs| && Active(e.runs[r])
    ensures e.lock.holder == Some(r) && (BracketHeld(e) <==> BracketOpen(e.runs[r]))
    ensures forall t: nat :: t < |e.runs| && t != r ==> !BracketOpen(e.runs[t])
  {
  }

  /** A statement does the same to the account as to the connection. */
  lemma NativeIsBooked(c: Conn, sql: Sql, acc: Account)
    requires OpenIs(c, acc) && Accepts(c, sql) && (!c.inTransaction ==> c.working == [])
    ensures OpenIs(Native(c, sql), Booked(acc, sql))
    ensures Booked(acc, sql).own == acc.own + Once(Instant(c, sql))
  {
    assert acc.own + [] == acc.own;
  }

  /** A new entry belongs in the account of its owner. */
  lemma EnteredIsBooked(e: Engine, e': Engine, p: Owner, writes: seq<Write>, o: Owner, acc: Account, acc': Account)
    requires DurableIs(e, o, acc) && e'.log == e.log + Entries(p, writes)
    requires CommittedAtEnd(e', o) <==> CommittedAtEnd(e, o)
    requires if o == p then acc'.own == acc.own + Once(writes) && !CommittedAtEnd(e, o) else acc' == acc
    ensures DurableIs(e', o, acc')
  {
    EntriesGrow(e.log, p, writes, o);
    hide Durable, Entries, CommittedAtEnd;
    assert Durable(e.log, o) + [] == Durable(e.log, o) && acc.own + [] == acc.own && acc'.own + [] == acc'.own;
  }

  lemma ExecuteKeepsBooks(e: Engine, r: nat, sql: Sql, o: Owner, acc: Account)
    requires GateInv(e) && NativeInv(e) && Can(e, Execute(r, sql)) && Books(e, o, acc)
    ensures Books(Do(e, Execute(r, sql)), o, Told(acc, Execute(r, sql), o))
  {
    InsideHolds(e, r);
    if o == Of(r) { NativeIsBooked(e.conn, sql, acc); }
    EnteredIsBooked(e, Do(e, Execute(r, sql)), Of(r), Instant(e.conn, sql), o, acc, Told(acc, Execute(r, sql), o));
    hide GateInv, NativeInv, DurableIs, Entries, Native, Instant, Booked, OpenIs, Accepts;
  }

  lemma StatementKeepsBooks(e: Engine, r: nat, sql: Sql, o: Owner, acc: Account)
    requires GateInv(e) && NativeInv(e) && Can(e, StatementExecutes(r, sql)) && Books(e, o, acc)
    ensures Books(Do(e, StatementExecutes(r, sql)), o, Told(acc, StatementExecutes(r, sql), o))
  {
    InsideHolds(e, r);
    if o == Plain { NativeIsBooked(e.conn, sql, acc); }
    EnteredIsBooked(e, Do(e, StatementExecutes(r, sql)), Plain, Instant(e.conn, sql), o, acc, Told(acc, StatementExecutes(r, sql), o));
    assert Native(e.conn, sql).usable == e.conn.usable;
    hide GateInv, NativeInv, DurableIs, Entries, Native, Instant, Booked, OpenIs, Accepts;
  }

  /** COMMIT of the bracket enters the run's open transaction. */
  lemma FinishIsBooked(e: Engine, r: nat, answers: Answers, acc: Account)
    requires Can(e, Finish(r, answers)) && e.runs[r].begun && DurableIs(e, Of(r), acc) && OpenIs(e.conn, acc)
    ensures DurableIs(Do(e, Finish(r, answers)), Of(r), acc)
  {
    EntriesGrow(e.log, Of(r), e.conn.working, Of(r));
    hide Durable, Entries, Finished;
    assert acc.own + [] == acc.own;
  }

  lemma FinishKeepsDurable(e: Engine, r: nat, answers: Answers, o: Owner, acc: Account)
    requires NativeInv(e) && Can(e, Finish(r, answers)) && DurableIs(e, o, acc) && (o == Of(r) ==> OpenIs(e.conn, acc))
    ensures DurableIs(Do(e, Finish(r, answers)), o, acc)
  {
    var e' := Do(e, Finish(r, answers));
    assert e.log + [] == e.log;
    if o == Of(r) {
      FinishIsBooked(e, r, answers, acc);
    } else {
      EnteredIsBooked(e, e', Of(r), if e'.runs[r].phase == Ended(Returned) then e.conn.working else [], o, acc, acc);
    }
    hide NativeInv, DurableIs, Finished;
  }

  lemma FinishKeepsBooks(e: Engine, r: nat, answers: Answers, o: Owner, acc: Account)
    requires GateInv(e) && NativeInv(e) && Can(e, Finish(r, answers)) && Books(e, o, acc)
    ensures Books(Do(e, Finish(r, answers)), o, acc)
  {
    InsideHolds(e, r);
    FinishedIsDry(e.conn, e.runs[r].failure, e.runs[r].drained, answers);
    FinishKeepsDurable(e, r, answers, o, acc);
    hide GateInv, NativeInv, DurableIs, Entries, Finished;
  }

  lemma FinishedIsDry(c: Conn, failure: Thrown, drained: Thrown, a: Answers)
    requires !c.inTransaction ==> c.working == []
    ensures var (c', outcome) := Finished(c, true, failure, drained, a);
            && (!c'.inTransaction ==> c'.working == [])
            && (c'.usable ==> !c'.inTransaction)
  {
  }

  lemma BreakKeepsBooks(e: Engine, r: nat, o: Owner, acc: Account)
    requires GateInv(e) && NativeInv(e) && Can(e, Break(r)) && Books(e, o, acc)
    ensures Books(Do(e, Break(r)), o, Told(acc, Break(r), o))
  {
    InsideHolds(e, r);
    hide GateInv, NativeInv, Durable;
  }

  lemma StatementBreakKeepsBooks(e: Engine, r: nat, o: Owner, acc: Account)
    requires GateInv(e) && NativeInv(e) && Can(e, StatementBreaks(r)) && Books(e, o, acc)
    ensures Books(Do(e, StatementBreaks(r)), o, Told(acc, StatementBreaks(r), o))
  {
    InsideHolds(e, r);
    hide GateInv, NativeInv, Durable;
  }

  lemma BeginKeepsBooks(e: Engine, r: nat, o: Owner, acc: Account)
    requires GateInv(e) && NativeInv(e) && Can(e, Begin(r)) && Books(e, o, acc)
    ensures Books(Do(e, Begin(r)), o, Told(acc, Begin(r), o))
  {
    InsideHolds(e, r);
    assert !CommittedAtEnd(e, Of(r));
    hide GateInv, Durable;
  }

  /** Any other action leaves the connection and the log alone. */
  predicate Silent(a: Action) {
    !a.Execute? && !a.StatementExecutes? && !a.Finish? && !a.Break? && !a.StatementBreaks? && !a.Begin?
  }

  lemma SilentKeepsBooks(e: Engine, a: Action, o: Owner, acc: Account)
    requires GateInv(e) && NativeInv(e) && Can(e, a) && Silent(a) && Books(e, o, acc)
    ensures Books(Do(e, a), o, acc)
  {
    hide Durable, Ascends;
    var e' := Do(e, a);
    if a.Grant? { assert a.run in e.lock.queue; }
    assert e'.conn == e.conn && e'.log == e.log;
    assert BracketHeld(e') <==> BracketHeld(e);
    assert CommittedAtEnd(e', o) <==> CommittedAtEnd(e, o);
  }

  lemma ActionKeepsBooks(e: Engine, a: Action, o: Owner, acc: Account)
    requires GateInv(e) && NativeInv(e) && Can(e, a) && Books(e, o, acc)
    ensures Books(Do(e, a), o, Told(acc, a, o))
  {
    hide GateInv, NativeInv, Books, Can, Do;
    match a
    case StatementExecutes(r, sql) => StatementKeepsBooks(e, r, sql, o, acc);
    case Execute(r, sql) => ExecuteKeepsBooks(e, r, sql, o, acc);
    case Finish(r, answers) => FinishKeepsBooks(e, r, answers, o, acc);
    case Break(r) => BreakKeepsBooks(e, r, o, acc);
    case StatementBreaks(r) => StatementBreakKeepsBooks(e, r, o, acc);
    case Begin(r) => BeginKeepsBooks(e, r, o, acc);
    case _ => SilentKeepsBooks(e, a, o, acc);
  }

  lemma InvKept(e: Engine, a: Action)
    requires Inv(e) && Can(e, a)
    ensures Inv(Do(e, a))
    ensures GateInv(e) && NativeInv(e)
  {
    hide GateInv, NativeInv, Can, Do;
    ActionKeepsGate(e, a);
    ActionKeepsNative(e, a);
    ActionKeepsFlat(e, a);
  }

  lemma {:induction false} HistoryKeepsInv(e: Engine, actions: seq<Action>)
    requires Inv(e) && IsHistory(e, actions)
    ensures Inv(After(e, actions))
    decreases |actions|
  {
    if actions != [] {
      hide Inv, Can, Do;
      InvKept(e, actions[0]);
      HistoryKeepsInv(Do(e, actions[0]), actions[1..]);
    }
  }

  lemma {:induction false} HistoryKeepsBooks(e: Engine, actions: seq<Action>, o: Owner, acc: Account)
    requires Inv(e) && Books(e, o, acc) && IsHistory(e, actions)
    ensures Books(After(e, actions), o, Accounted(acc, actions, o))
    decreases |actions|
  {
    if actions != [] {
      hide Inv, GateInv, NativeInv, Books, Can, Do, Told;
      InvKept(e, actions[0]);
      ActionKeepsBooks(e, actions[0], o, acc);
      HistoryKeepsBooks(Do(e, actions[0]), actions[1..], o, Told(acc, actions[0], o));
    }
  }

  lemma StartIsBooked(o: Owner)
    ensures Inv(START) && Books(START, o, EMPTY)
  {
  }

  /**
   Over every interleaving: the durable content is the entries of the log one after the
   other, and what is durable of a run, or of the plain statements together, depends on
   its own actions only: what it made durable by itself, and at the end of a run that
   returned everything in the transaction it then had open.
   */
  lemma AllOrNothing(actions: seq<Action>, o: Owner)
    requires IsHistory(START, actions)
    ensures After(START, actions).conn.committed == Flatten(After(START, actions).log)
    ensures DurableIs(After(START, actions), o, Accounted(EMPTY, actions, o))
  {
    HistoryKeepsInv(START, actions);
    HistoryKeepsBooks(START, actions, o, EMPTY);
  }

  // ---- Runs that leave their transaction to the bracket ----------------------------------------------

  /** The run neither ends nor opens a transaction by itself, and the engine does not end it underneath. */
  predicate LeavesItAlone(a: Action, r: nat) {
    !(a.Execute? && a.run == r && !a.sql.Insert?) && !(a.Break? && a.run == r)
  }

  /** What the run's operations write, in order. */
  function Wrote(actions: seq<Action>, r: nat): seq<Write> {
    if actions == [] then [] else WroteNow(actions[0], r) + Wrote(actions[1..], r)
  }

  /** What one action adds to that. */
  function WroteNow(a: Action, r: nat): seq<Write> {
    if a.Execute? && a.run == r && a.sql.Insert? then [a.sql.write] else []
  }

  /** Inside its bracket such a run has made nothing durable yet and has the transaction open. */
  predicate Alone(e: Engine, r: nat, acc: Account) {
    acc.own == [] && (r < |e.runs| && BracketOpen(e.runs[r]) ==> acc.open.Some?)
  }

  lemma AloneStep(e: Engine, a: Action, r: nat, acc: Account)
    requires GateInv(e) && Can(e, a) && Books(e, Of(r), acc) && Alone(e, r, acc) && LeavesItAlone(a, r)
    ensures Alone(Do(e, a), r, Told(acc, a, Of(r)))
    ensures OpenWrites(Told(acc, a, Of(r))) == OpenWrites(acc) + WroteNow(a, r)
  {
    hide DurableIs, OpenIs, Ascends;
    if a.Grant? { assert a.run in e.lock.queue; }
    assert OpenWrites(acc) + [] == OpenWrites(acc);
  }

  predicate Undisturbed(actions: seq<Action>, r: nat) {
    forall i :: 0 <= i < |actions| ==> LeavesItAlone(actions[i], r)
  }

  lemma UndisturbedRest(actions: seq<Action>, r: nat)
    requires actions != [] && Undisturbed(actions, r)
    ensures LeavesItAlone(actions[0], r) && Undisturbed(actions[1..], r)
  {
    hide LeavesItAlone;
    forall i | 0 <= i < |actions[1..]| ensures LeavesItAlone(actions[1..][i], r) {
      assert actions[1..][i] == actions[i + 1];
    }
  }

  lemma {:induction false} AloneIsOpen(e: Engine, actions: seq<Action>, r: nat, acc: Account)
    requires Inv(e) && Books(e, Of(r), acc) && IsHistory(e, actions) && Alone(e, r, acc) && Undisturbed(actions, r)
    ensures Accounted(acc, actions, Of(r)).own == []
    ensures OpenWrites(Accounted(acc, actions, Of(r))) == OpenWrites(acc) + Wrote(actions, r)
    decreases |actions|
  {
    if actions != [] {
      var a, rest := actions[0], actions[1..];
      UndisturbedRest(actions, r);
      assert Can(e, a) && IsHistory(Do(e, a), rest);
      assert Wrote(actions, r) == WroteNow(a, r) + Wrote(rest, r);
      assert Accounted(acc, actions, Of(r)) == Accounted(Told(acc, a, Of(r)), rest, Of(r));
      hide *;
      InvKept(e, a);
      ActionKeepsBooks(e, a, Of(r), acc);
      AloneStep(e, a, r, acc);
      AloneIsOpen(Do(e, a), rest, r, Told(acc, a, Of(r)));
      assert OpenWrites(acc) + WroteNow(a, r) + Wrote(rest, r) == OpenWrites(acc) + (WroteNow(a, r) + Wrote(rest, r));
    }
  }

  /**
   A run that leaves its transaction to the bracket is all or nothing: if it began and
   returned, all its writes became durable at one instant, and otherwise none did.
   */
  lemma UndisturbedIsAtomic(actions: seq<Action>, r: nat)
    requires IsHistory(START, actions) && Undisturbed(actions, r)
    ensures Durable(After(START, actions).log, Of(r))
         == if CommittedAtEnd(After(START, actions), Of(r)) then Once(Wrote(actions, r)) else []
  {
    hide *;
    StartIsBooked(Of(r));
    StartIsAlone(r);
    AllOrNothing(actions, Of(r));
    AloneIsOpen(START, actions, r, EMPTY);
    OwnAndOpen(After(START, actions), Of(r), Accounted(EMPTY, actions, Of(r)), Wrote(actions, r));
  }

  lemma StartIsAlone(r: nat)
    ensures Alone(START, r, EMPTY) && OpenWrites(EMPTY) == []
  {
  }

  lemma OwnAndOpen(e: Engine, o: Owner, acc: Account, writes: seq<Write>)
    requires DurableIs(e, o, acc) && acc.own == [] && OpenWrites(acc) == [] + writes
    ensures Durable(e.log, o) == if CommittedAtEnd(e, o) then Once(writes) else []
  {
    assert [] + writes == writes;
    hide Durable, OpenWrites;
  }

  // ---- Runs that do not ----------------------------------------------------------------------------------

  /** The action writes with no transaction open, or commits what its owner has written in the open one. */
  predicate MakesDurable(acc: Account, a: Action, o: Owner) {
    match SqlOf(a, o)
    case None => false
    case Some(sql) => (sql.Insert? && acc.open == None) || (sql.CommitTx? && OpenWrites(acc) != [])
  }

  /** Somewhere along its actions the owner does that. */
  predicate CommitsItself(acc: Account, actions: seq<Action>, o: Owner)
    decreases |actions|
  {
    actions != [] && (MakesDurable(acc, actions[0], o) || CommitsItself(Told(acc, actions[0], o), actions[1..], o))
  }

  lemma {:induction false} OwnGrowsIff(acc: Account, actions: seq<Action>, o: Owner)
    ensures |Accounted(acc, actions, o).own| >= |acc.own|
    ensures |Accounted(acc, actions, o).own| > |acc.own| <==> CommitsItself(acc, actions, o)
    decreases |actions|
  {
    if actions != [] { OwnGrowsIff(Told(acc, actions[0], o), actions[1..], o); }
  }

  /**
   A run that is not committed at its end has left nothing behind exactly if it neither
   committed writes by itself nor wrote after its transaction had ended.
   */
  lemma ThrownLeavesNothingIff(actions: seq<Action>, r: nat)
    requires IsHistory(START, actions) && !CommittedAtEnd(After(START, actions), Of(r))
    ensures Durable(After(START, actions).log, Of(r)) == [] <==> !CommitsItself(EMPTY, actions, Of(r))
  {
    AllOrNothing(actions, Of(r));
    OwnGrowsIff(EMPTY, actions, Of(r));
  }

  const BEGUN := Engine(Lock(Some(0), []), Conn(true, true, [], []), [Run(Transaction, InCallback, true, Undefined, Undefined, 0)], [])

  const BEGINNING: seq<Action> := [Request(Transaction), Grant(0), Begin(0)]

  const FINISH := Finish(0, Answers(true, false, true))

  /** The engine ends the transaction under a failing operation, and the callback writes once more before it throws. */
  const BREAKS: seq<Action> := [Break(0), Execute(0, Insert(5)), CallbackThrows(0, Error(9)), FINISH]

  /** The callback writes, commits by itself and throws. */
  const COMMITS: seq<Action> := [Execute(0, Insert(5)), Execute(0, CommitTx), CallbackThrows(0, Error(9)), FINISH]

  /** The callback rolls back by itself and writes once more; nothing rejects. */
  const ROLLS_BACK: seq<Action> := [Execute(0, RollbackTx), Execute(0, Insert(5)), CallbackReturns(0), FINISH]

  lemma OneMore(e: Engine, a: Action, rest: seq<Action>)
    requires Can(e, a) && IsHistory(Do(e, a), rest)
    ensures IsHistory(e, [a] + rest) && After(e, [a] + rest) == After(Do(e, a), rest)
  {
    assert ([a] + rest)[1..] == rest;
  }

  lemma ThreeMore(e: Engine, a: Action, b: Action, c: Action)
    requires Can(e, a) && Can(Do(e, a), b) && Can(Do(Do(e, a), b), c)
    ensures IsHistory(e, [a, b, c]) && After(e, [a, b, c]) == Do(Do(Do(e, a), b), c)
  {
    hide Can, Do;
    OneMore(Do(Do(e, a), b), c, []);
    OneMore(Do(e, a), b, [c] + []);
    OneMore(e, a, [b] + ([c] + []));
    assert [a, b, c] == [a] + ([b] + ([c] + []));
  }

  lemma FourMore(e: Engine, a: Action, b: Action, c: Action, d: Action)
    requires Can(e, a) && Can(Do(e, a), b) && Can(Do(Do(e, a), b), c) && Can(Do(Do(Do(e, a), b), c), d)
    ensures IsHistory(e, [a, b, c, d]) && After(e, [a, b, c, d]) == Do(Do(Do(Do(e, a), b), c), d)
  {
    hide Can, Do;
    ThreeMore(Do(e, a), b, c, d);
    OneMore(e, a, [b, c, d]);
    assert [a, b, c, d] == [a] + [b, c, d];
  }

  lemma BeginningRuns()
    ensures IsHistory(START, BEGINNING) && After(START, BEGINNING) == BEGUN
  {
    hide IsHistory, After;
    ThreeMore(START, Request(Transaction), Grant(0), Begin(0));
  }

  /** The run has thrown, and a write of it is durable. */
  ghost predicate LeavesWrite(actions: seq<Action>, thrown: Thrown)
  {
    && IsHistory(START, BEGINNING) && IsHistory(After(START, BEGINNING), actions)
    && var e := After(After(START, BEGINNING), actions);
       |e.runs| == 1 && e.runs[0].phase == Ended(Threw(thrown)) && e.conn.committed == [5]
  }

  lemma BrokenRunLeavesWrite()
    ensures LeavesWrite(BREAKS, Error(9))
  {
    hide IsHistory, After;
    BeginningRuns();
    FourMore(BEGUN, Break(0), Execute(0, Insert(5)), CallbackThrows(0, Error(9)), FINISH);
  }

  lemma SelfCommitLeavesWrite()
    ensures LeavesWrite(COMMITS, Error(9))
  {
    hide IsHistory, After;
    BeginningRuns();
    FourMore(BEGUN, Execute(0, Insert(5)), Execute(0, CommitTx), CallbackThrows(0, Error(9)), FINISH);
  }

  lemma SelfRollbackLeavesWrite()
    ensures LeavesWrite(ROLLS_BACK, COMMIT_FAILED)
  {
    hide IsHistory, After;
    BeginningRuns();
    FourMore(BEGUN, Execute(0, RollbackTx), Execute(0, Insert(5)), CallbackReturns(0), FINISH);
  }

  // ---- How a run ends -------------------------------------------------------------------------------------

  /** The callback's rejection, and those of the run's operations in settling order, as the run's own actions tell them. */
  function Heard(b: Body, a: Action, r: nat): Body {
    if a == CallbackReturns(r) then b.(callback := Returned)
    else if a.CallbackThrows? && a.run == r then b.(callback := Threw(a.error))
    else if a.Reject? && a.run == r then b.(rejections := b.rejections + [a.error])
    else b
  }

  const SILENT := Body(Returned, [])

  function BodyOf(b: Body, actions: seq<Action>, r: nat): Body
    decreases |actions|
  {
    if actions == [] then b else BodyOf(Heard(b, actions[0], r), actions[1..], r)
  }

  /** The run's fields are what has been heard of it. */
  predicate Hears(e: Engine, r: nat, b: Body) {
    if r < |e.runs| then e.runs[r].failure == FailureOf(b) && e.runs[r].drained == DrainedOf(b) else b == SILENT
  }

  /** Until the callback has ended nothing has been heard of it. */
  predicate NotYet(e: Engine, r: nat, b: Body) {
    r < |e.runs| && e.runs[r].phase != Settling && !e.runs[r].phase.Ended? ==> b.callback == Returned
  }

  lemma ActionIsHeard(e: Engine, a: Action, r: nat, b: Body)
    requires Can(e, a) && Hears(e, r, b) && NotYet(e, r, b) && (r < |e.runs| ==> !e.runs[r].phase.Ended?)
    ensures Hears(Do(e, a), r, Heard(b, a, r))
  {
  }

  lemma ActionKeepsNotYet(e: Engine, a: Action, r: nat, b: Body)
    requires GateInv(e) && Can(e, a) && NotYet(e, r, b) && Hears(e, r, b)
    ensures NotYet(Do(e, a), r, Heard(b, a, r))
  {
    if a.Grant? { assert a.run in e.lock.queue; }
  }

  /** The phase in which a run ends does not change any more. */
  lemma {:induction false} EndedStays(e: Engine, actions: seq<Action>, r: nat)
    requires Inv(e) && IsHistory(e, actions) && r < |e.runs| && e.runs[r].phase.Ended?
    ensures r < |After(e, actions).runs| && After(e, actions).runs[r] == e.runs[r]
    decreases |actions|
  {
    if actions != [] {
      EndedStep(e, actions[0], r);
      InvKept(e, actions[0]);
      EndedStays(Do(e, actions[0]), actions[1..], r);
    }
  }

  lemma EndedStep(e: Engine, a: Action, r: nat)
    requires Inv(e) && Can(e, a) && r < |e.runs| && e.runs[r].phase.Ended?
    ensures r < |Do(e, a).runs| && Do(e, a).runs[r] == e.runs[r]
  {
    hide NativeInv, Flatten;
    if a.Grant? { assert a.run in e.lock.queue; }
  }

  /** The outcome of a bracket: by its body, whether a native transaction is open, and the engine's answers. */
  function BracketEnds(c: Conn, b: Body, a: Answers): Outcome {
    if Clean(b) || RejectsWithUndefined(b) then
      if c.inTransaction && a.commitOk then Returned
      else if c.inTransaction && !a.commitEnds && !a.rollbackOk then Threw(ROLLBACK_FAILED)
      else Threw(COMMIT_FAILED)
    else if c.inTransaction && !a.rollbackOk then Threw(ROLLBACK_FAILED)
    else Threw(FirstFailure(b))
  }

  /** The callback's rejection goes before those of its operations, unless it is `undefined` or `null`. */
  function FirstFailure(b: Body): Thrown {
    if b.callback.Threw? && (b.callback.value.Error? || DrainedOf(b) == Undefined) then b.callback.value else DrainedOf(b)
  }

  lemma FinishedEnds(c: Conn, b: Body, a: Answers)
    ensures Finished(c, true, FailureOf(b), DrainedOf(b), a).1 == BracketEnds(c, b, a)
  {
  }

  lemma {:induction false} HistorySplits(e: Engine, before: seq<Action>, rest: seq<Action>)
    requires IsHistory(e, before + rest)
    ensures IsHistory(e, before) && IsHistory(After(e, before), rest)
    ensures After(e, before + rest) == After(After(e, before), rest)
    decreases |before|
  {
    if before == [] {
      assert before + rest == rest;
    } else {
      assert (before + rest)[0] == before[0] && (before + rest)[1..] == before[1..] + rest;
      HistorySplits(Do(e, before[0]), before[1..], rest);
    }
  }

  /** The actions before, the action and the rest. */
  lemma HistoryAt(actions: seq<Action>, n: nat)
    requires IsHistory(START, actions) && n < |actions|
    ensures IsHistory(START, actions[..n]) && Can(After(START, actions[..n]), actions[n])
    ensures IsHistory(Do(After(START, actions[..n]), actions[n]), actions[n + 1..])
    ensures After(START, actions) == After(Do(After(START, actions[..n]), actions[n]), actions[n + 1..])
  {
    assert actions == actions[..n] + actions[n..];
    HistorySplits(START, actions[..n], actions[n..]);
    assert actions[n..][0] == actions[n] && actions[n..][1..] == actions[n + 1..];
  }

  /** While it has not ended, a run's fields are what has been heard of it. */
  lemma {:induction false} RunHears(e: Engine, actions: seq<Action>, r: nat, b: Body)
    requires Inv(e) && IsHistory(e, actions) && Hears(e, r, b) && NotYet(e, r, b)
    requires r < |After(e, actions).runs| ==> !After(e, actions).runs[r].phase.Ended?
    ensures Hears(After(e, actions), r, BodyOf(b, actions, r))
    decreases |actions|
  {
    if actions != [] {
      var a := actions[0];
      InvKept(e, a);
      if r < |e.runs| && e.runs[r].phase.Ended? {
        EndedStays(e, actions, r);
      } else {
        hide Inv, Do, Can, Hears, Heard;
        ActionIsHeard(e, a, r, b);
        ActionKeepsNotYet(e, a, r, b);
        RunHears(Do(e, a), actions[1..], r, Heard(b, a, r));
      }
    }
  }

  /** Whatever ends a run at some action is how it stands ever after. */
  lemma EndedForGood(actions: seq<Action>, n: nat, r: nat, outcome: Outcome)
    requires IsHistory(START, actions) && n < |actions|
    requires IsHistory(START, actions[..n]) && Can(After(START, actions[..n]), actions[n])
    requires r < |Do(After(START, actions[..n]), actions[n]).runs|
    requires Do(After(START, actions[..n]), actions[n]).runs[r].phase == Ended(outcome)
    ensures r < |After(START, actions).runs| && After(START, actions).runs[r].phase == Ended(outcome)
  {
    hide Do, Can;
    HistoryAt(actions, n);
    StartIsBooked(Plain);
    HistoryKeepsInv(START, actions[..n]);
    InvKept(After(START, actions[..n]), actions[n]);
    EndedStays(Do(After(START, actions[..n]), actions[n]), actions[n + 1..], r);
  }

  /** A run whose BEGIN fails ends with that error; only an error that is `undefined` makes it return. */
  lemma BeginFailureIsThrown(actions: seq<Action>, n: nat, r: nat, error: Thrown)
    requires IsHistory(START, actions) && n < |actions| && actions[n] == BeginFails(r, error)
    ensures r < |After(START, actions).runs|
    ensures error != Undefined ==> After(START, actions).runs[r].phase == Ended(Threw(error))
    ensures error == Undefined ==> After(START, actions).runs[r].phase == Ended(Returned)
  {
    HistoryAt(actions, n);
    EndedForGood(actions, n, r, if error == Undefined then Returned else Threw(error));
  }

  /**
   A begun run returns exactly if its body calls for COMMIT, its native transaction is
   still open, and COMMIT succeeds. Otherwise it throws: that a ROLLBACK failed, else
   that COMMIT failed, else the first failure of its body.
   */
  lemma FinishEnds(actions: seq<Action>, n: nat, r: nat, answers: Answers)
    requires IsHistory(START, actions) && n < |actions| && actions[n] == Finish(r, answers) && IsHistory(START, actions[..n])
    ensures r < |After(START, actions).runs| && After(START, actions).runs[r].phase.Ended?
    ensures var outcome := After(START, actions).runs[r].phase.outcome;
            var open := After(START, actions[..n]).conn.inTransaction;
            var b := BodyOf(SILENT, actions[..n], r);
            var commits := Clean(b) || RejectsWithUndefined(b);
            && (outcome == Returned <==> commits && open && answers.commitOk)
            && (open && !answers.rollbackOk && (commits ==> !answers.commitOk && !answers.commitEnds) ==>
                  outcome == Threw(ROLLBACK_FAILED))
            && (commits && !(open && answers.commitOk) && (!open || answers.commitEnds || answers.rollbackOk) ==>
                  outcome == Threw(COMMIT_FAILED))
            && (!commits && (!open || answers.rollbackOk) ==>
                  outcome == Threw(if b.callback.Threw? && b.callback.value.Error? then b.callback.value
                                   else if b.rejections != [] && b.rejections[|b.rejections| - 1] != Undefined
                                        then b.rejections[|b.rejections| - 1]
                                   else b.callback.value))
  {
    HistoryAt(actions, n);
    var e, b := After(START, actions[..n]), BodyOf(SILENT, actions[..n], r);
    StartIsBooked(Plain);
    HistoryKeepsInv(START, actions[..n]);
    RunHears(START, actions[..n], r, SILENT);
    FinishedEnds(e.conn, b, answers);
    assert e.runs[r].begun;
    EndedForGood(actions, n, r, BracketEnds(e.conn, b, answers));
  }

  /** A transaction returns exactly if its bracket was committed, or its BEGIN failed with `undefined`. */
  lemma ReturnedIff(actions: seq<Action>, r: nat)
    requires IsHistory(START, actions) && r < |After(START, actions).runs| && After(START, actions).runs[r].kind == Transaction
    ensures After(START, actions).runs[r].phase == Ended(Returned)
       <==> exists n :: 0 <= n < |actions| && (actions[n] == BeginFails(r, Undefined) || Commits(actions, n, r))
  {
    StartIsBooked(Plain);
    if After(START, actions).runs[r].phase == Ended(Returned) {
      var n := EndsSomewhere(START, actions, r);
      HistoryAt(actions, n);
      ReturnsAt(actions, n, r);
    }
    forall n | 0 <= n < |actions| && (actions[n] == BeginFails(r, Undefined) || Commits(actions, n, r))
      ensures After(START, actions).runs[r].phase == Ended(Returned)
    {
      if actions[n] == BeginFails(r, Undefined) { BeginFailureIsThrown(actions, n, r, Undefined); }
      else { FinishEnds(actions, n, r, actions[n].answers); }
    }
  }

  /** The bracket of the run ends by a COMMIT that succeeds. */
  predicate Commits(actions: seq<Action>, n: nat, r: nat) {
    && n < |actions| && actions[n].Finish? && actions[n].run == r && actions[n].answers.commitOk
    && (Clean(BodyOf(SILENT, actions[..n], r)) || RejectsWithUndefined(BodyOf(SILENT, actions[..n], r)))
    && IsHistory(START, actions[..n]) && After(START, actions[..n]).conn.inTransaction
  }

  /** The action at which a run ends. */
  lemma {:induction false} EndsSomewhere(e: Engine, actions: seq<Action>, r: nat) returns (n: nat)
    requires Inv(e) && IsHistory(e, actions) && (r < |e.runs| ==> !e.runs[r].phase.Ended?)
    requires r < |After(e, actions).runs| && After(e, actions).runs[r].phase.Ended?
    ensures n < |actions| && IsHistory(e, actions[..n]) && Can(After(e, actions[..n]), actions[n])
    ensures r < |After(e, actions[..n]).runs| ==> !After(e, actions[..n]).runs[r].phase.Ended?
    ensures r < |Do(After(e, actions[..n]), actions[n]).runs|
    ensures Do(After(e, actions[..n]), actions[n]).runs[r] == After(e, actions).runs[r]
    decreases |actions|
  {
    hide Do, Can;
    var e' := Do(e, actions[0]);
    InvKept(e, actions[0]);
    if r < |e'.runs| && e'.runs[r].phase.Ended? {
      n := 0;
      assert actions[..0] == [];
      EndedStays(e', actions[1..], r);
    } else {
      var k := EndsSomewhere(e', actions[1..], r);
      n := k + 1;
      assert actions[..n][0] == actions[0] && actions[..n][1..] == actions[1..][..k];
    }
  }

  /** Only a failing BEGIN and the end of its bracket make a transaction return. */
  lemma ReturnsBy(e: Engine, a: Action, r: nat, b: Body)
    requires GateInv(e) && NativeInv(e) && Can(e, a) && Hears(e, r, b) && (r < |e.runs| ==> !e.runs[r].phase.Ended?)
    requires r < |Do(e, a).runs| && Do(e, a).runs[r].phase == Ended(Returned) && Do(e, a).runs[r].kind == Transaction
    ensures a == BeginFails(r, Undefined)
         || (a.Finish? && a.run == r && a.answers.commitOk && e.conn.inTransaction && (Clean(b) || RejectsWithUndefined(b)))
  {
    if a.Finish? && a.run == r {
      assert e.runs[r].begun;
      FinishedEnds(e.conn, b, a.answers);
    }
    hide GateInv, NativeInv, Finished, Clean, RejectsWithUndefined;
  }

  lemma ReturnsAt(actions: seq<Action>, n: nat, r: nat)
    requires IsHistory(START, actions) && n < |actions| && IsHistory(START, actions[..n]) && Can(After(START, actions[..n]), actions[n])
    requires r < |After(START, actions[..n]).runs| ==> !After(START, actions[..n]).runs[r].phase.Ended?
    requires var e' := Do(After(START, actions[..n]), actions[n]);
             r < |e'.runs| && e'.runs[r].phase == Ended(Returned) && e'.runs[r].kind == Transaction
    ensures actions[n] == BeginFails(r, Undefined) || Commits(actions, n, r)
  {
    StartIsBooked(Plain);
    HistoryKeepsInv(START, actions[..n]);
    RunHears(START, actions[..n], r, SILENT);
    hide GateInv, NativeInv, Books, Flatten, Do, Can, IsHistory, After, BodyOf, Clean, RejectsWithUndefined;
    ReturnsBy(After(START, actions[..n]), actions[n], r, BodyOf(SILENT, actions[..n], r));
  }

  /** How many operations of the run its actions have issued and not settled. */
  function Outstanding(actions: seq<Action>, r: nat): int {
    if actions == [] then 0 else Outstands(actions[0], r) + Outstanding(actions[1..], r)
  }

  function Outstands(a: Action, r: nat): int {
    if a == Issue(r) then 1 else if a == Resolve(r) || (a.Reject? && a.run == r) then -1 else 0
  }

  function PendingOf(e: Engine, r: nat): int {
    if r < |e.runs| then e.runs[r].pending else 0
  }

  lemma OneOutstands(e: Engine, a: Action, r: nat)
    requires Can(e, a)
    ensures PendingOf(Do(e, a), r) == PendingOf(e, r) + Outstands(a, r)
  {
  }

  lemma {:induction false} PendingIs(e: Engine, actions: seq<Action>, r: nat)
    requires IsHistory(e, actions)
    ensures PendingOf(After(e, actions), r) == PendingOf(e, r) + Outstanding(actions, r)
    decreases |actions|
  {
    if actions != [] {
      OneOutstands(e, actions[0], r);
      PendingIs(Do(e, actions[0]), actions[1..], r);
    }
  }

  /** A bracket ends only when every operation that was issued in it has settled. */
  lemma FinishWaits(actions: seq<Action>, n: nat, r: nat, answers: Answers)
    requires IsHistory(START, actions) && n < |actions| && actions[n] == Finish(r, answers)
    ensures Outstanding(actions[..n], r) == 0
  {
    HistoryAt(actions, n);
    PendingIs(START, actions[..n], r);
  }

  // ---- When the connection is given up ----------------------------------------------------------------

  /** The transaction is still open when it is rolled back, and COMMIT is not called for or has failed too. */
  predicate RollbackFails(c: Conn, b: Body, a: Answers) {
    && c.inTransaction && !a.rollbackOk
    && (Clean(b) || RejectsWithUndefined(b) ==> !a.commitOk && !a.commitEnds)
  }

  /** A ROLLBACK fails at this action. */
  predicate Taints(actions: seq<Action>, n: nat) {
    && n < |actions| && actions[n].Finish? && IsHistory(START, actions[..n])
    && RollbackFails(After(START, actions[..n]).conn, BodyOf(SILENT, actions[..n], actions[n].run), actions[n].answers)
  }

  lemma TaintsNow(e: Engine, a: Action, b: Body)
    requires NativeInv(e) && Can(e, a) && (a.Finish? ==> Hears(e, a.run, b))
    ensures Do(e, a).conn.usable <==> e.conn.usable && !(a.Finish? && RollbackFails(e.conn, b, a.answers))
  {
    if a.Finish? { assert e.runs[a.run].begun; }
  }

  lemma LastTaints(actions: seq<Action>)
    requires IsHistory(START, actions) && actions != []
    ensures IsHistory(START, actions[..|actions| - 1])
    ensures After(START, actions).conn.usable <==> After(START, actions[..|actions| - 1]).conn.usable && !Taints(actions, |actions| - 1)
  {
    hide GateInv, NativeInv, Do, Can, BodyOf, Clean, RejectsWithUndefined, Hears;
    var n := |actions| - 1;
    HistoryAt(actions, n);
    StartIsBooked(Plain);
    HistoryKeepsInv(START, actions[..n]);
    InvKept(After(START, actions[..n]), actions[n]);
    if actions[n].Finish? { FinisherHears(actions, n); }
    TaintsNow(After(START, actions[..n]), actions[n], if actions[n].Finish? then BodyOf(SILENT, actions[..n], actions[n].run) else SILENT);
  }

  /** The connection is usable exactly as long as no ROLLBACK has failed. */
  lemma {:induction false} TaintedIff(actions: seq<Action>)
    requires IsHistory(START, actions)
    ensures !After(START, actions).conn.usable <==> exists n :: 0 <= n < |actions| && Taints(actions, n)
  {
    if actions != [] {
      var init := actions[..|actions| - 1];
      LastTaints(actions);
      TaintedIff(init);
      forall k | 0 <= k < |init| ensures Taints(actions, k) == Taints(init, k) {
        assert actions[..k] == init[..k];
      }
      hide Taints, After, IsHistory;
      if k :| 0 <= k < |actions| && Taints(actions, k) {
        assert k < |init| ==> Taints(init, k);
      }
      if k :| 0 <= k < |init| && Taints(init, k) {
        assert Taints(actions, k);
      }
    }
  }

  lemma FinisherHears(actions: seq<Action>, n: nat)
    requires n < |actions| && IsHistory(START, actions[..n]) && Can(After(START, actions[..n]), actions[n]) && actions[n].Finish?
    ensures Hears(After(START, actions[..n]), actions[n].run, BodyOf(SILENT, actions[..n], actions[n].run))
  {
    StartIsBooked(Plain);
    RunHears(START, actions[..n], actions[n].run, SILENT);
  }

  /** From then on every caller is turned away, for good; before, every caller waits its turn. */
  lemma LateRequest(actions: seq<Action>, n: nat, kind: Kind)
    requires IsHistory(START, actions) && n < |actions| && actions[n] == Request(kind) && IsHistory(START, actions[..n])
    ensures var r := |After(START, actions[..n]).runs|;
            && r < |After(START, actions).runs|
            && ((exists k :: 0 <= k < n && Taints(actions[..n], k)) ==> After(START, actions).runs[r].phase == Ended(Threw(UNUSABLE)))
            && (!(exists k :: 0 <= k < n && Taints(actions[..n], k)) ==>
                  r in Do(After(START, actions[..n]), actions[n]).lock.queue)
  {
    HistoryAt(actions, n);
    TaintedIff(actions[..n]);
    var e := After(START, actions[..n]);
    hide Taints;
    if e.conn.usable {
      StillThere(Do(e, actions[n]), actions[n + 1..], |e.runs|);
    } else {
      EndedForGood(actions, n, |e.runs|, Threw(UNUSABLE));
    }
  }

  lemma {:induction false} StillThere(e: Engine, actions: seq<Action>, r: nat)
    requires IsHistory(e, actions) && r < |e.runs|
    ensures r < |After(e, actions).runs|
    decreases |actions|
  {
    if actions != [] { StillThere(Do(e, actions[0]), actions[1..], r); }
  }

  // ---- Between the brackets ------------------------------------------------------------------------------

  /** The plain statements have left a transaction open. */
  predicate PlainOpen(actions: seq<Action>) {
    Accounted(EMPTY, actions, Plain).open.Some?
  }

  /**
   Over every interleaving: one run at most is inside the bracket, a run that has
   ended neither holds the gate nor waits at it, and while no run is inside, a usable
   connection is in a transaction exactly if the plain statements have left one open.
   */
  lemma BracketExclusive(actions: seq<Action>)
    requires IsHistory(START, actions)
    ensures var e := After(START, actions);
            && (forall r: nat, t: nat :: r < |e.runs| && t < |e.runs| && Active(e.runs[r]) && Active(e.runs[t]) ==> r == t)
            && (forall r: nat :: r < |e.runs| && e.runs[r].phase.Ended? ==> e.lock.holder != Some(r) && r !in e.lock.queue)
            && ((forall r: nat :: r < |e.runs| ==> !BracketOpen(e.runs[r])) && e.conn.usable ==>
                  (e.conn.inTransaction <==> PlainOpen(actions)))
  {
    HistoryKeepsInv(START, actions);
    HistoryKeepsBooks(START, actions, Plain, EMPTY);
  }

  /** The plain statement executes no BEGIN. */
  predicate OpensNone(a: Action) {
    !(a.StatementExecutes? && a.sql.BeginTx?)
  }

  /** As long as no plain statement executes BEGIN they have none open. */
  lemma {:induction false} PlainNeverOpens(acc: Account, actions: seq<Action>)
    requires acc.open == None && forall i :: 0 <= i < |actions| ==> OpensNone(actions[i])
    ensures Accounted(acc, actions, Plain).open == None
    decreases |actions|
  {
    if actions != [] {
      assert OpensNone(actions[0]);
      PlainNeverOpens(Told(acc, actions[0], Plain), actions[1..]);
    }
  }

  /** What a plain statement finds is what plain statements have left. */
  lemma PlainFindsOpen(e: Engine, r: nat, acc: Account)
    requires GateInv(e) && Books(e, Plain, acc) && InPhase(e, r, Statement, Entered) && e.conn.usable
    ensures e.conn.inTransaction <==> acc.open.Some?
  {
    InsideHolds(e, r);
    hide GateInv, DurableIs;
  }

  /** A plain write is durable at once exactly if the plain statements have no transaction open. */
  lemma PlainWriteIsDurableIff(actions: seq<Action>, r: nat, w: Write)
    requires IsHistory(START, actions) && Can(After(START, actions), StatementExecutes(r, Insert(w)))
    ensures var e := After(START, actions);
            Do(e, StatementExecutes(r, Insert(w))).log == if PlainOpen(actions) then e.log else e.log + [Entry(Plain, [w])]
  {
    hide IsHistory, After, Accounted, GateInv, NativeInv, Books, Flatten;
    var e := After(START, actions);
    StartIsBooked(Plain);
    HistoryKeepsInv(START, actions);
    HistoryKeepsBooks(START, actions, Plain, EMPTY);
    PlainFindsOpen(e, r, Accounted(EMPTY, actions, Plain));
    assert e.log + [] == e.log;
  }

  const PLAIN_BEGIN: seq<Action> := [Request(Statement), Grant(0), StatementExecutes(0, BeginTx), StatementEnds(0, Returned)]

  /** A plain BEGIN: nobody is inside, and the usable connection is in a transaction. */
  lemma PlainBeginStaysOpen()
    ensures IsHistory(START, PLAIN_BEGIN)
    ensures var e := After(START, PLAIN_BEGIN);
            |e.runs| == 1 && e.runs[0].phase == Ended(Returned) && e.lock == Lock(None, []) && e.conn.usable && e.conn.inTransaction
  {
    hide IsHistory, After;
    FourMore(START, Request(Statement), Grant(0), StatementExecutes(0, BeginTx), StatementEnds(0, Returned));
  }

  // ---- The gate is used as a lock ---------------------------------------------------------------------------

  /** The lock transition that an action makes, if any. */
  function LockUse(e: Engine, a: Action): Option<Step> {
    match a
    case Request(_) => if e.conn.usable then Some(Step.Acquire) else None
    case Cancel(r) => Some(Step.Abort(r))
    case Grant(r) => Some(Step.Turn(r))
    case BeginFails(r, _) => Some(Step.Release(r))
    case StatementEnds(r, _) => Some(Step.Release(r))
    case Finish(r, _) => Some(Step.Release(r))
    case _ => None
  }

  /** Each run takes its slot by one turn and gives back exactly that slot. */
  lemma GateDiscipline(e: Engine, a: Action)
    requires Inv(e) && Can(e, a)
    ensures var e' := Do(e, a);
            match LockUse(e, a)
            case None => e'.lock == e.lock
            case Some(s) => LockStep(e.lock, s, e'.lock, |e.runs|, false)
    ensures LockUse(e, a).Some? && LockUse(e, a).value.Release? ==> e.lock.holder == Some(a.run)
  {
    if a.Grant? {
      assert a.run in e.lock.queue;
    }
  }
}
