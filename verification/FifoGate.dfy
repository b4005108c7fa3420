/**
 The gate in front of the native connection. Every `acquire` adds a link to a
 promise chain: a link's turn comes when the link before it is resolved, and a
 cancelled link resolves itself as soon as its turn comes. One step is one
 await-free segment of the code, and the steps of different callers interleave
 freely.
 */
module FifoGate {
  import opened Options

  /**
   One acquire: its abort listener fired before its turn, its turn has come, and
   its link of the chain is resolved.
   */
  datatype Link = Link(cancelled: bool, turned: bool, resolved: bool)

  datatype Chain = Chain(links: seq<Link>, waiting: int)

  const EMPTY := Chain([], 0)

  datatype Step =
    | Acquire              // acquire() with a live signal or none
    | AcquireAborted       // acquire() with a signal that is already aborted
    | Abort(ticket: nat)   // the signal of a queued acquire fires
    | Turn(ticket: nat)    // the continuation on the previous link runs
    | Release(ticket: nat) // a granted caller calls its release function

  predicate Holds(c: Chain, i: nat) {
    i < |c.links| && c.links[i].turned && !c.links[i].cancelled && !c.links[i].resolved
  }

  predicate WasGranted(c: Chain, i: nat) {
    i < |c.links| && c.links[i].turned && !c.links[i].cancelled
  }

  predicate Queued(c: Chain, i: nat) {
    i < |c.links| && !c.links[i].turned && !c.links[i].cancelled
  }

  /**
   When a segment can run: a turn needs the previous link, a release function
   exists once the caller was granted, and the abort listener is removed when the
   turn comes.
   */
  predicate Enabled(c: Chain, s: Step) {
    match s
    case Acquire => true
    case AcquireAborted => true
    case Abort(i) => Queued(c, i)
    case Turn(i) => i < |c.links| && !c.links[i].turned && (i == 0 || c.links[i - 1].resolved)
    case Release(i) => WasGranted(c, i)
  }

  /** A cancelled link passes the turn on at once. */
  function AfterTurn(l: Link): Link {
    if l.cancelled then l.(turned := true, resolved := true) else l.(turned := true)
  }

  function Next(c: Chain, s: Step): Chain
    requires Enabled(c, s)
  {
    match s
    case Acquire => Chain(c.links + [Link(false, false, false)], c.waiting + 1)
    case AcquireAborted => c
    case Abort(i) => c.(links := c.links[i := c.links[i].(cancelled := true)])
    case Turn(i) =>
      Chain(c.links[i := AfterTurn(c.links[i])], c.waiting - 1)
    case Release(i) => c.(links := c.links[i := c.links[i].(resolved := true)])
  }

  // ---- The class -----------------------------------------------------------------------------

  class Gate {
    var links: seq<Link>
    var waiting: int

    function State(): Chain
      reads this
    {
      Chain(links, waiting)
    }

    constructor ()
      ensures State() == EMPTY
    {
      links, waiting := [], 0;
    }

    function Pending(): int
      reads this
    {
      waiting
    }

    /** Queues a caller; a signal that is already aborted leaves no trace. */
    method Join(aborted: bool) returns (ticket: Option<nat>)
      modifies this
      ensures State() == Next(old(State()), if aborted then AcquireAborted else Acquire)
      ensures ticket == if aborted then None else Some(|old(links)|)
    {
      if aborted { return None; }
      waiting := waiting + 1;
      links := links + [Link(false, false, false)];
      ticket := Some(|links| - 1);
    }

    method Cancel(ticket: nat)
      requires Enabled(State(), Abort(ticket))
      modifies this`links
      ensures State() == Next(old(State()), Abort(ticket))
    {
      links := links[ticket := links[ticket].(cancelled := true)];
    }

    /** The continuation on the previous link: grants the caller or passes the turn on. */
    method TakeTurn(ticket: nat) returns (granted: bool)
      requires Enabled(State(), Turn(ticket))
      modifies this
      ensures State() == Next(old(State()), Turn(ticket))
      ensures granted <==> WasGranted(State(), ticket)
    {
      waiting := waiting - 1;
      links := links[ticket := links[ticket].(turned := true)];
      if links[ticket].cancelled {
        links := links[ticket := links[ticket].(resolved := true)];
        return false;
      }
      return true;
    }

    /** The release function of a granted caller; only its first call matters. */
    method LetGo(ticket: nat)
      requires Enabled(State(), Release(ticket))
      modifies this`links
      ensures State() == Next(old(State()), Release(ticket))
    {
      if links[ticket].resolved {
        assert links == links[ticket := links[ticket].(resolved := true)];
        return;
      }
      links := links[ticket := links[ticket].(resolved := true)];
    }
  }

  // ---- Runs --------------------------------------------------------------------------------------

  predicate IsRun(c: Chain, steps: seq<Step>)
    decreases |steps|
  {
    steps == [] || (Enabled(c, steps[0]) && IsRun(Next(c, steps[0]), steps[1..]))
  }

  function After(c: Chain, steps: seq<Step>): Chain
    requires IsRun(c, steps)
    decreases |steps|
  {
    if steps == [] then c else After(Next(c, steps[0]), steps[1..])
  }

  /** The number of callers whose turn has not come. */
  function Unturned(links: seq<Link>): nat {
    if links == [] then 0
    else Unturned(links[..|links| - 1]) + (if links[|links| - 1].turned then 0 else 1)
  }

  ghost predicate Inv(c: Chain) {
    && (forall i :: 0 <= i < |c.links| ==> c.links[i].resolved ==> c.links[i].turned)
    && (forall i :: 0 <= i < |c.links| ==> c.links[i].turned && c.links[i].cancelled ==> c.links[i].resolved)
    && (forall i, j :: 0 <= i < j < |c.links| ==> c.links[j].turned ==> c.links[i].resolved)
    && c.waiting == Unturned(c.links)
  }

  lemma {:induction false} UnturnedOfUpdate(links: seq<Link>, i: nat, l: Link)
    requires i < |links|
    ensures Unturned(links[i := l]) == Unturned(links) + (if links[i].turned then 1 else 0) - (if l.turned then 1 else 0)
  {
    var init := links[..|links| - 1];
    if i == |links| - 1 {
      assert links[i := l][..|links| - 1] == init;
    } else {
      UnturnedOfUpdate(init, i, l);
      assert links[i := l][..|links| - 1] == init[i := l];
    }
  }

  lemma UnturnedSnoc(links: seq<Link>, l: Link)
    ensures Unturned(links + [l]) == Unturned(links) + if l.turned then 0 else 1
  {
    assert (links + [l])[..|links|] == links;
  }

  lemma StepKeepsInv(c: Chain, s: Step)
    requires Inv(c) && Enabled(c, s)
    ensures Inv(Next(c, s))
  {
    hide Unturned;
    match s
    case Acquire => UnturnedSnoc(c.links, Next(c, s).links[|c.links|]);
    case AcquireAborted =>
    case Abort(i) => UnturnedOfUpdate(c.links, i, c.links[i].(cancelled := true));
    case Turn(i) => UnturnedOfUpdate(c.links, i, AfterTurn(c.links[i]));
    case Release(i) => UnturnedOfUpdate(c.links, i, c.links[i].(resolved := true));
  }

  lemma {:induction false} RunKeepsInv(c: Chain, steps: seq<Step>)
    requires Inv(c) && IsRun(c, steps)
    ensures Inv(After(c, steps))
    decreases |steps|
  {
    if steps != [] {
      StepKeepsInv(c, steps[0]);
      RunKeepsInv(Next(c, steps[0]), steps[1..]);
    }
  }

  /**
   After every interleaving: at most one holder; a granted caller's predecessors
   were all granted and released, or cancelled; `waiting` counts the callers
   whose turn has not come.
   */
  lemma GateSafety(steps: seq<Step>)
    requires IsRun(EMPTY, steps)
    ensures var c := After(EMPTY, steps);
            && (forall i: nat, j: nat :: Holds(c, i) && Holds(c, j) ==> i == j)
            && (forall i: nat, j: nat :: i < j && WasGranted(c, j) ==> !Queued(c, i) && !Holds(c, i))
            && c.waiting == Unturned(c.links)
  {
    RunKeepsInv(EMPTY, steps);
    var c := After(EMPTY, steps);
  }

  // ---- The order of grants ---------------------------------------------------------------------------

  /** The tickets granted along a run, in the order of the grants. */
  function Grants(c: Chain, steps: seq<Step>): seq<nat>
    requires IsRun(c, steps)
    decreases |steps|
  {
    if steps == [] then []
    else
      var s := steps[0];
      (if s.Turn? && !c.links[s.ticket].cancelled then [s.ticket] else []) + Grants(Next(c, s), steps[1..])
  }

  /** The granted tickets of a chain, in arrival order. */
  function GrantedTickets(links: seq<Link>): seq<nat> {
    if links == [] then []
    else
      var n := |links| - 1;
      GrantedTickets(links[..n]) + (if links[n].turned && !links[n].cancelled then [n] else [])
  }

  lemma {:induction false} GrantedOfUpdate(links: seq<Link>, i: nat, l: Link)
    requires i < |links|
    requires !(links[i].turned && !links[i].cancelled)
    requires forall k :: i < k < |links| ==> !links[k].turned
    ensures GrantedTickets(links[i := l]) == GrantedTickets(links) + (if l.turned && !l.cancelled then [i] else [])
  {
    var n := |links| - 1;
    if i == n {
      assert links[i := l][..n] == links[..n];
    } else {
      GrantedOfUpdate(links[..n], i, l);
      assert links[i := l][..n] == links[..n][i := l];
    }
  }

  lemma {:induction false} GrantedOfRelease(links: seq<Link>, i: nat, l: Link)
    requires i < |links| && l.turned == links[i].turned && l.cancelled == links[i].cancelled
    ensures GrantedTickets(links[i := l]) == GrantedTickets(links)
  {
    var n := |links| - 1;
    if i == n {
      assert links[i := l][..n] == links[..n];
    } else {
      GrantedOfRelease(links[..n], i, l);
      assert links[i := l][..n] == links[..n][i := l];
    }
  }

  lemma {:induction false} GrantedOfAbort(links: seq<Link>, i: nat)
    requires i < |links| && !links[i].turned
    ensures GrantedTickets(links[i := links[i].(cancelled := true)]) == GrantedTickets(links)
  {
    var n, l := |links| - 1, links[i].(cancelled := true);
    if i == n {
      assert links[i := l][..n] == links[..n];
    } else {
      GrantedOfAbort(links[..n], i);
      assert links[i := l][..n] == links[..n][i := l];
    }
  }

  /** A grant adds its ticket behind all earlier grants; no other step grants. */
  lemma StepGrants(c: Chain, s: Step)
    requires Inv(c) && Enabled(c, s)
    ensures GrantedTickets(Next(c, s).links)
         == GrantedTickets(c.links) + (if s.Turn? && !c.links[s.ticket].cancelled then [s.ticket] else [])
  {
    match s
    case Acquire => UnturnedSnoc(c.links, Next(c, s).links[|c.links|]);
    case AcquireAborted =>
    case Abort(i) => GrantedOfAbort(c.links, i);
    case Turn(i) => GrantedOfUpdate(c.links, i, AfterTurn(c.links[i]));
    case Release(i) => GrantedOfRelease(c.links, i, c.links[i].(resolved := true));
  }

  /** Grants happen in arrival order, whatever the interleaving. */
  lemma {:induction false} GrantsFollowArrival(c: Chain, steps: seq<Step>)
    requires Inv(c) && IsRun(c, steps)
    ensures GrantedTickets(After(c, steps).links) == GrantedTickets(c.links) + Grants(c, steps)
    decreases |steps|
  {
    hide Inv, GrantedTickets;
    if steps != [] {
      StepKeepsInv(c, steps[0]);
      StepGrants(c, steps[0]);
      GrantsFollowArrival(Next(c, steps[0]), steps[1..]);
    }
  }

  ghost predicate Ascends(q: seq<nat>) {
    forall i, j :: 0 <= i < j < |q| ==> q[i] < q[j]
  }

  lemma AscendsSnoc(q: seq<nat>, n: nat)
    requires Ascends(q) && forall t: nat :: t in q ==> t < n
    ensures Ascends(q + [n])
  {
    assert forall i :: 0 <= i < |q| ==> q[i] in q;
  }

  lemma {:induction false} GrantedTicketsAscend(links: seq<Link>)
    ensures Ascends(GrantedTickets(links))
    ensures forall t: nat :: t in GrantedTickets(links) <==> WasGranted(Chain(links, 0), t)
  {
    if links != [] {
      var n := |links| - 1;
      GrantedTicketsAscend(links[..n]);
      assert forall t: nat :: t < n ==> (WasGranted(Chain(links, 0), t) <==> WasGranted(Chain(links[..n], 0), t));
      AscendsSnoc(GrantedTickets(links[..n]), n);
    }
  }

  /** No caller is granted twice or out of turn, and never after it was cancelled. */
  lemma GrantOrder(steps: seq<Step>)
    requires IsRun(EMPTY, steps)
    ensures Ascends(Grants(EMPTY, steps))
    ensures forall t: nat :: t in Grants(EMPTY, steps) <==> WasGranted(After(EMPTY, steps), t)
  {
    GrantsFollowArrival(EMPTY, steps);
    GrantedTicketsAscend(After(EMPTY, steps).links);
    assert GrantedTickets(EMPTY.links) + Grants(EMPTY, steps) == Grants(EMPTY, steps);
  }

  // ---- Progress -------------------------------------------------------------------------------------------

  ghost predicate NoHolder(c: Chain) {
    forall i: nat :: !Holds(c, i)
  }

  /** The first link whose turn has not come. */
  function FirstUnturned(links: seq<Link>, from: nat): (i: nat)
    requires from <= |links|
    ensures from <= i <= |links|
    ensures forall k :: from <= k < i ==> links[k].turned
    ensures i < |links| ==> !links[i].turned
    decreases |links| - from
  {
    if from == |links| || !links[from].turned then from else FirstUnturned(links, from + 1)
  }

  /** With no holder the chain never stalls: the next link can take its turn. */
  lemma TurnIsEnabled(c: Chain)
    requires Inv(c) && NoHolder(c) && FirstUnturned(c.links, 0) < |c.links|
    ensures Enabled(c, Turn(FirstUnturned(c.links, 0)))
  {
    var i := FirstUnturned(c.links, 0);
    if i > 0 {
      assert !Holds(c, i - 1);
    }
  }

  function Turns(from: nat, end: nat): seq<Step>
    requires from <= end
    decreases end - from
  {
    if from == end then [] else [Turn(from)] + Turns(from + 1, end)
  }

  /**
   Cancelled callers block nobody: with no holder, the turns of the cancelled
   links in front of a live caller all run, and then the caller is granted.
   */
  lemma {:induction false} CancelledBlockNobody(c: Chain, first: nat, live: nat)
    requires Inv(c) && NoHolder(c)
    requires first == FirstUnturned(c.links, 0) && first <= live && Queued(c, live)
    requires forall k :: first <= k < live ==> c.links[k].cancelled
    ensures IsRun(c, Turns(first, live + 1))
    ensures Holds(After(c, Turns(first, live + 1)), live)
    decreases live - first
  {
    TurnIsEnabled(c);
    var c' := Next(c, Turn(first));
    assert Turns(first, live + 1) == [Turn(first)] + Turns(first + 1, live + 1);
    assert Turns(first, live + 1)[1..] == Turns(first + 1, live + 1);
    if first < live {
      StepKeepsInv(c, Turn(first));
      assert forall k: nat :: k < |c.links| && k != first ==> c'.links[k] == c.links[k];
      forall k: nat ensures !Holds(c', k) {
        assert !Holds(c, k);
      }
      assert c'.links[first].turned && !c'.links[first + 1].turned;
      assert forall k :: 0 <= k < first ==> c'.links[k].turned;
      CancelledBlockNobody(c', first + 1, live);
    } else {
      assert Turns(first + 1, live + 1) == [];
    }
  }

  // ---- What callers see: a first-in first-out lock -------------------------------------------------------------

  /** The lock the promise chain implements: a holder and the live queue. */
  datatype Lock = Lock(holder: Option<nat>, queue: seq<nat>)

  function HolderOf(links: seq<Link>): Option<nat> {
    if links == [] then None
    else
      var n := |links| - 1;
      if links[n].turned && !links[n].cancelled && !links[n].resolved then Some(n) else HolderOf(links[..n])
  }

  function LiveQueue(links: seq<Link>): seq<nat> {
    if links == [] then []
    else
      var n := |links| - 1;
      LiveQueue(links[..n]) + (if !links[n].turned && !links[n].cancelled then [n] else [])
  }

  function AsLock(c: Chain): Lock {
    Lock(HolderOf(c.links), LiveQueue(c.links))
  }

  function Without(queue: seq<nat>, t: nat): seq<nat> {
    if queue == [] then []
    else if queue[|queue| - 1] == t then Without(queue[..|queue| - 1], t)
    else Without(queue[..|queue| - 1], t) + [queue[|queue| - 1]]
  }

  /** The transitions of the lock. Turns of cancelled links are invisible. */
  ghost predicate LockStep(a: Lock, s: Step, b: Lock, ticket: nat, cancelled: bool) {
    match s
    case Acquire => b == Lock(a.holder, a.queue + [ticket])
    case AcquireAborted => b == a
    case Abort(t) => b == Lock(a.holder, Without(a.queue, t))
    case Turn(t) =>
      if cancelled then b == a
      else a.holder == None && a.queue != [] && a.queue[0] == t && b == Lock(Some(t), a.queue[1..])
    case Release(t) => b == if a.holder == Some(t) then Lock(None, a.queue) else a
  }

  lemma {:induction false} HolderMeans(links: seq<Link>)
    ensures HolderOf(links).Some? ==> Holds(Chain(links, 0), HolderOf(links).value)
    ensures HolderOf(links).None? ==> NoHolder(Chain(links, 0))
  {
    if links != [] {
      var n := |links| - 1;
      HolderMeans(links[..n]);
      if HolderOf(links).None? {
        forall i: nat ensures !Holds(Chain(links, 0), i) {
          assert !Holds(Chain(links[..n], 0), i);
        }
      }
    }
  }

  lemma HolderIs(c: Chain, i: nat)
    requires Inv(c) && Holds(c, i)
    ensures HolderOf(c.links) == Some(i)
  {
    HolderMeans(c.links);
    assert Holds(Chain(c.links, 0), i);
    OneHolder(c);
    assert Holds(c, HolderOf(c.links).value);
  }

  lemma {:induction false} QueueIs(links: seq<Link>)
    ensures Ascends(LiveQueue(links))
    ensures forall t: nat :: t in LiveQueue(links) <==> Queued(Chain(links, 0), t)
  {
    if links != [] {
      var n := |links| - 1;
      QueueIs(links[..n]);
      assert forall t: nat :: t < n ==> (Queued(Chain(links, 0), t) <==> Queued(Chain(links[..n], 0), t));
      AscendsSnoc(LiveQueue(links[..n]), n);
    }
  }

  /** An ascending list is determined by its members. */
  lemma {:induction false} AscendingList(a: seq<nat>, b: seq<nat>)
    requires Ascends(a) && Ascends(b) && forall t: nat :: t in a <==> t in b
    ensures a == b
  {
    assert |b| > 0 ==> b[|b| - 1] in a;
    assert |a| > 0 ==> a[|a| - 1] in b;
    if |a| > 0 {
      var x, y := a[..|a| - 1], b[..|b| - 1];
      assert a[|a| - 1] == b[|b| - 1];
      assert a == x + [a[|a| - 1]] && b == y + [a[|a| - 1]];
      forall t: nat ensures t in x <==> t in y {
        if t in x { assert t in a && t < a[|a| - 1]; }
        if t in y { assert t in b && t < b[|b| - 1]; }
      }
      AscendingList(x, y);
    }
  }

  lemma {:induction false} WithoutIs(q: seq<nat>, t: nat)
    requires Ascends(q)
    ensures Ascends(Without(q, t))
    ensures forall x: nat :: x in Without(q, t) <==> x in q && x != t
  {
    if q != [] {
      var init, last := q[..|q| - 1], q[|q| - 1];
      assert q == init + [last];
      WithoutIs(init, t);
      AscendsSnoc(Without(init, t), last);
    }
  }

  /** A link that leaves the live queue, by a turn or by an abort. */
  lemma QueueOfUpdate(links: seq<Link>, i: nat, l: Link)
    requires i < |links| && (l.turned || l.cancelled)
    ensures LiveQueue(links[i := l]) == Without(LiveQueue(links), i)
  {
    QueueIs(links);
    QueueIs(links[i := l]);
    WithoutIs(LiveQueue(links), i);
    forall t: nat ensures Queued(Chain(links[i := l], 0), t) <==> Queued(Chain(links, 0), t) && t != i {}
    AscendingList(LiveQueue(links[i := l]), Without(LiveQueue(links), i));
  }

  lemma WithoutHead(q: seq<nat>, t: nat)
    requires Ascends(q) && t in q && forall x: nat :: x in q ==> t <= x
    ensures q[0] == t && Without(q, t) == q[1..]
  {
    assert q[0] in q;
    assert q == [q[0]] + q[1..];
    WithoutIs(q, t);
    forall x: nat ensures x in q[1..] <==> x in q && x != t {
      if x in q[1..] {
        var k :| 0 <= k < |q[1..]| && q[1..][k] == x;
        assert q[k + 1] == x;
      }
    }
    AscendingList(Without(q, t), q[1..]);
  }

  lemma WithoutAbsent(q: seq<nat>, t: nat)
    requires Ascends(q) && t !in q
    ensures Without(q, t) == q
  {
    WithoutIs(q, t);
    AscendingList(Without(q, t), q);
  }

  lemma HolderOfUpdate(c: Chain, i: nat, l: Link)
    requires i < |c.links| && !Holds(c, i) && !(l.turned && !l.cancelled && !l.resolved)
    requires forall j: nat, k: nat :: Holds(c, j) && Holds(c, k) ==> j == k
    ensures HolderOf(c.links[i := l]) == HolderOf(c.links)
  {
    var d := Chain(c.links[i := l], 0);
    HolderMeans(c.links);
    HolderMeans(d.links);
    forall k: nat ensures Holds(d, k) <==> Holds(c, k) {}
    forall k: nat ensures Holds(Chain(c.links, 0), k) <==> Holds(c, k) {}
  }

  lemma OneHolder(c: Chain)
    requires Inv(c)
    ensures forall i: nat, j: nat :: Holds(c, i) && Holds(c, j) ==> i == j
  {
  }

  /** When a turn can be taken nobody holds the gate, and its link is the oldest unturned one. */
  lemma TurnIsNext(c: Chain, i: nat)
    requires Inv(c) && Enabled(c, Turn(i))
    ensures NoHolder(c)
    ensures forall t: nat :: Queued(c, t) ==> i <= t
  {
    forall k: nat ensures !Holds(c, k) && (Queued(c, k) ==> i <= k) {
      assert k < i - 1 ==> (c.links[i - 1].turned ==> c.links[k].resolved);
    }
  }

  lemma TurnRefines(c: Chain, i: nat)
    requires Inv(c) && Enabled(c, Turn(i))
    ensures LockStep(AsLock(c), Turn(i), AsLock(Next(c, Turn(i))), |c.links|, c.links[i].cancelled)
  {
    var c' := Next(c, Turn(i));
    StepKeepsInv(c, Turn(i));
    QueueIs(c.links);
    QueueOfUpdate(c.links, i, c'.links[i]);
    TurnIsNext(c, i);
    HolderMeans(c.links);
    assert HolderOf(c.links).Some? ==> Holds(c, HolderOf(c.links).value);
    var q := LiveQueue(c.links);
    forall t: nat ensures t in q <==> Queued(c, t) {
      assert Queued(Chain(c.links, 0), t) <==> Queued(c, t);
    }
    if c.links[i].cancelled {
      WithoutAbsent(q, i);
      HolderOfUpdate(c, i, c'.links[i]);
    } else {
      HolderIs(c', i);
      WithoutHead(q, i);
    }
  }

  lemma ReleaseRefines(c: Chain, i: nat)
    requires Inv(c) && Enabled(c, Release(i))
    ensures LockStep(AsLock(c), Release(i), AsLock(Next(c, Release(i))), |c.links|, false)
  {
    var c' := Next(c, Release(i));
    QueueIs(c.links);
    QueueIs(c'.links);
    forall t: nat ensures Queued(Chain(c'.links, 0), t) <==> Queued(Chain(c.links, 0), t) {}
    AscendingList(LiveQueue(c'.links), LiveQueue(c.links));
    OneHolder(c);
    HolderMeans(c.links);
    HolderMeans(c'.links);
    if Holds(c, i) {
      HolderIs(c, i);
      assert HolderOf(c'.links).Some? ==> Holds(c, HolderOf(c'.links).value);
    } else {
      assert c'.links == c.links;
      assert HolderOf(c.links).Some? ==> Holds(c, HolderOf(c.links).value);
    }
  }

  /** Every step of the chain is the corresponding step of the lock. */
  lemma ChainRefinesLock(c: Chain, s: Step)
    requires Inv(c) && Enabled(c, s)
    ensures LockStep(AsLock(c), s, AsLock(Next(c, s)), |c.links|, s.Turn? && c.links[s.ticket].cancelled)
  {
    match s
    case Acquire =>
      assert Next(c, s).links[..|c.links|] == c.links;
    case AcquireAborted =>
    case Abort(i) =>
      OneHolder(c);
      QueueOfUpdate(c.links, i, c.links[i].(cancelled := true));
      HolderOfUpdate(c, i, c.links[i].(cancelled := true));
    case Turn(i) =>
      TurnRefines(c, i);
    case Release(i) =>
      ReleaseRefines(c, i);
  }
}
