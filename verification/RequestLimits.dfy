/**
 The middleware that bounds active requests. A request holds its slot from admission
 until its response has ended, failed, finished cancelling or turned out to have no
 body. One step of this model is one stretch of code between two awaits; the steps of
 different requests, of the client and of the consumer interleave freely.
 */
module RequestLimits {

  datatype Phase = Handling | Failed | NoBody | Streaming

  datatype Cancellation = NotStarted | Running | Finished

  datatype Answer = Open | TooLarge | FromHandler | Thrown

  /**
   An admitted request. `reading` is set while a pull waits for the source, `closed`
   once the outgoing stream takes no more pulls.
   */
  datatype Request = Request(phase: Phase, aborted: bool, exceeded: bool, reading: bool, closed: bool,
                             cancellation: Cancellation, released: bool, answer: Answer)

  datatype State = State(active: int, requests: seq<Request>)

  datatype Read = Chunk | Done | Error

  datatype Event =
    | Arrive(aborted: bool, declaredTooLong: bool)
    | Abort(i: nat)
    | Exceed(i: nat)
    | HandlerReturns(i: nat, hasBody: bool)
    | HandlerThrows(i: nat)
    | Pull(i: nat)
    | ReadReturns(i: nat, read: Read)
    | ConsumerCancels(i: nat)
    | CancelFinishes(i: nat)

  const ADMITTED := Request(Handling, false, false, false, false, NotStarted, false, Open)

  // ---- The closures of one request --------------------------------------------------------

  /** `release`: only the first call gives the slot back. */
  function Release(s: State, i: nat): State
    requires i < |s.requests|
  {
    if s.requests[i].released then s
    else State(s.active - 1, s.requests[i := s.requests[i].(released := true)])
  }

  /** `cancelResponse`, of a response that exists: only the first call starts the cancellation. */
  function CancelResponse(r: Request): Request {
    if r.cancellation == NotStarted then r.(cancellation := Running) else r
  }

  predicate Enabled(s: State, e: Event) {
    match e
    case Arrive(_, _) => true
    case Abort(i) => i < |s.requests| && !s.requests[i].aborted
    case Exceed(i) => i < |s.requests| && s.requests[i].phase == Handling
    case HandlerReturns(i, _) => i < |s.requests| && s.requests[i].phase == Handling
    case HandlerThrows(i) => i < |s.requests| && s.requests[i].phase == Handling
    case Pull(i) => i < |s.requests| && s.requests[i].phase == Streaming && !s.requests[i].reading && !s.requests[i].closed
    case ReadReturns(i, _) => i < |s.requests| && s.requests[i].reading
    case ConsumerCancels(i) => i < |s.requests| && s.requests[i].phase == Streaming && !s.requests[i].closed
    case CancelFinishes(i) => i < |s.requests| && s.requests[i].cancellation == Running
  }

  function Step(s: State, e: Event, maxActive: nat): State
    requires Enabled(s, e)
  {
    match e
    case Arrive(aborted, tooLong) => Arrived(s, aborted, tooLong, maxActive)
    case Abort(i) => Aborted(s, i)
    case Exceed(i) => State(s.active, s.requests[i := s.requests[i].(exceeded := true)])
    case HandlerReturns(i, hasBody) => Returned(s, i, hasBody)
    case HandlerThrows(i) => Threw(s, i)
    case Pull(i) => Pulled(s, i)
    case ReadReturns(i, read) => WasRead(s, i, read)
    case ConsumerCancels(i) => State(s.active, s.requests[i := CancelResponse(s.requests[i]).(closed := true)])
    case CancelFinishes(i) => Release(State(s.active, s.requests[i := s.requests[i].(cancellation := Finished)]), i)
  }

  function Arrived(s: State, aborted: bool, tooLong: bool, maxActive: nat): State {
    if s.active >= maxActive then s
    else
      var r := ADMITTED.(aborted := aborted);
      var t := State(s.active + 1, s.requests + [r]);
      var i := |s.requests|;
      if aborted then Release(State(t.active, t.requests[i := r.(phase := Failed, answer := Thrown)]), i)
      else if tooLong then Release(State(t.active, t.requests[i := r.(phase := Failed, answer := TooLarge)]), i)
      else t
  }

  /** The listener is gone once the slot has been given back; before there is a response it only stops the upload. */
  function Aborted(s: State, i: nat): State
    requires i < |s.requests|
  {
    var r := s.requests[i].(aborted := true);
    State(s.active, s.requests[i := if !r.released && r.phase == Streaming then CancelResponse(r) else r])
  }

  /** An upload that was too long replaces the handler's response by one with a body. */
  function Returned(s: State, i: nat, hasBody: bool): State
    requires i < |s.requests|
  {
    var r := s.requests[i];
    var answer := if r.exceeded then TooLarge else FromHandler;
    if !r.exceeded && !hasBody then Release(State(s.active, s.requests[i := r.(phase := NoBody, answer := answer)]), i)
    else
      var streaming := r.(phase := Streaming, answer := answer);
      State(s.active, s.requests[i := if r.aborted then CancelResponse(streaming) else streaming])
  }

  function Threw(s: State, i: nat): State
    requires i < |s.requests|
  {
    var r := s.requests[i];
    Release(State(s.active, s.requests[i := r.(phase := Failed, answer := if r.exceeded then TooLarge else Thrown)]), i)
  }

  function Pulled(s: State, i: nat): State
    requires i < |s.requests|
  {
    var r := s.requests[i];
    State(s.active, s.requests[i := if r.aborted then CancelResponse(r).(closed := true) else r.(reading := true)])
  }

  function WasRead(s: State, i: nat, read: Read): State
    requires i < |s.requests|
  {
    var r := s.requests[i].(reading := false);
    if r.aborted then State(s.active, s.requests[i := CancelResponse(r).(closed := true)])
    else if read == Chunk then State(s.active, s.requests[i := r])
    else if r.cancellation == NotStarted then
      Release(State(s.active, s.requests[i := r.(closed := true)]), i)
    else State(s.active, s.requests[i := r.(closed := true)])
  }

  // ---- Runs -----------------------------------------------------------------------------------

  ghost predicate IsRun(events: seq<Event>, maxActive: nat)
    decreases |events|, 0
  {
    events == [] ||
    (IsRun(events[..|events| - 1], maxActive) && Enabled(After(events[..|events| - 1], maxActive), events[|events| - 1]))
  }

  ghost function After(events: seq<Event>, maxActive: nat): State
    requires IsRun(events, maxActive)
    decreases |events|, 1
  {
    if events == [] then State(0, [])
    else Step(After(events[..|events| - 1], maxActive), events[|events| - 1], maxActive)
  }

  /** How many admitted requests still hold their slot. */
  function Held(requests: seq<Request>): nat {
    if requests == [] then 0
    else Held(requests[..|requests| - 1]) + if requests[|requests| - 1].released then 0 else 1
  }

  lemma {:induction false} HeldAfterUpdate(requests: seq<Request>, i: nat, r: Request)
    requires i < |requests|
    ensures Held(requests[i := r]) == Held(requests) - (if requests[i].released then 0 else 1) + (if r.released then 0 else 1)
  {
    var n := |requests| - 1;
    if i == n {
      assert requests[i := r][..n] == requests[..n];
    } else {
      assert requests[i := r][..n] == requests[..n][i := r];
      HeldAfterUpdate(requests[..n], i, r);
    }
  }

  lemma HeldAppends(requests: seq<Request>, r: Request)
    ensures Held(requests + [r]) == Held(requests) + if r.released then 0 else 1
  {
    assert (requests + [r])[..|requests|] == requests;
  }

  /** What holds of every request at every moment. */
  predicate Consistent(r: Request) {
    && (r.phase == Handling ==> !r.released)
    && (r.phase == Failed || r.phase == NoBody || r.cancellation == Finished ==> r.released)
    && (r.phase != Streaming ==> !r.reading && !r.closed && r.cancellation == NotStarted)
    && (r.reading ==> r.phase == Streaming && (r.closed || r.released ==> r.cancellation != NotStarted))
    && (r.closed ==> r.released || r.cancellation != NotStarted)
    && (r.phase == Streaming && r.released && r.cancellation != Finished ==> r.closed && r.cancellation == NotStarted)
    && (r.phase == Streaming && r.aborted && !r.released ==> r.cancellation == Running)
    && (r.phase == Handling <==> r.answer == Open)
    && (r.exceeded && r.phase != Handling ==> r.answer == TooLarge)
  }

  ghost predicate Safe(s: State, maxActive: nat) {
    && s.active == Held(s.requests)
    && 0 <= s.active <= maxActive
    && forall i :: 0 <= i < |s.requests| ==> Consistent(s.requests[i])
  }

  lemma ReplacedIsSafe(s: State, i: nat, r: Request, maxActive: nat)
    requires Safe(s, maxActive) && i < |s.requests| && Consistent(r) && r.released == s.requests[i].released
    ensures Safe(State(s.active, s.requests[i := r]), maxActive)
  {
    HeldAfterUpdate(s.requests, i, r);
  }

  /** A request whose response is over for the first time gives its slot back. */
  lemma ReleasedIsSafe(s: State, i: nat, r: Request, maxActive: nat)
    requires Safe(s, maxActive) && i < |s.requests|
    requires r.released == s.requests[i].released && Consistent(r.(released := true))
    ensures Safe(Release(State(s.active, s.requests[i := r]), i), maxActive)
  {
    HeldAfterUpdate(s.requests, i, r);
    HeldAfterUpdate(s.requests[i := r], i, r.(released := true));
    assert s.requests[i := r][i := r.(released := true)] == s.requests[i := r.(released := true)];
    if r.released { assert r.(released := true) == r; }
  }

  lemma ArrivedIsSafe(s: State, aborted: bool, tooLong: bool, maxActive: nat)
    requires Safe(s, maxActive)
    ensures Safe(Arrived(s, aborted, tooLong, maxActive), maxActive)
  {
    if s.active < maxActive {
      var r := ADMITTED.(aborted := aborted);
      var t := State(s.active + 1, s.requests + [r]);
      HeldAppends(s.requests, r);
      assert Safe(t, maxActive);
      if aborted {
        ReleasedIsSafe(t, |s.requests|, r.(phase := Failed, answer := Thrown), maxActive);
      } else if tooLong {
        ReleasedIsSafe(t, |s.requests|, r.(phase := Failed, answer := TooLarge), maxActive);
      }
    }
  }

  lemma StepIsSafe(s: State, e: Event, maxActive: nat)
    requires Safe(s, maxActive) && Enabled(s, e)
    ensures Safe(Step(s, e, maxActive), maxActive)
  {
    match e {
      case Arrive(aborted, tooLong) => ArrivedIsSafe(s, aborted, tooLong, maxActive);
      case Abort(i) => ReplacedIsSafe(s, i, Aborted(s, i).requests[i], maxActive);
      case Exceed(i) => ReplacedIsSafe(s, i, s.requests[i].(exceeded := true), maxActive);
      case HandlerReturns(i, hasBody) =>
        if !s.requests[i].exceeded && !hasBody {
          ReleasedIsSafe(s, i, s.requests[i].(phase := NoBody, answer := FromHandler), maxActive);
        } else {
          ReplacedIsSafe(s, i, Returned(s, i, hasBody).requests[i], maxActive);
        }
      case HandlerThrows(i) =>
        ReleasedIsSafe(s, i, s.requests[i].(phase := Failed, answer := if s.requests[i].exceeded then TooLarge else Thrown), maxActive);
      case Pull(i) => ReplacedIsSafe(s, i, Pulled(s, i).requests[i], maxActive);
      case ReadReturns(i, read) =>
        var r := s.requests[i].(reading := false);
        if !r.aborted && read != Chunk && r.cancellation == NotStarted {
          ReleasedIsSafe(s, i, r.(closed := true), maxActive);
        } else {
          ReplacedIsSafe(s, i, WasRead(s, i, read).requests[i], maxActive);
        }
      case ConsumerCancels(i) => ReplacedIsSafe(s, i, CancelResponse(s.requests[i]).(closed := true), maxActive);
      case CancelFinishes(i) => ReleasedIsSafe(s, i, s.requests[i].(cancellation := Finished), maxActive);
    }
  }

  /**
   At every moment of every run the counter is the number of admitted requests that
   hold a slot, and it stays within the limit.
   */
  lemma {:induction false} RunIsSafe(events: seq<Event>, maxActive: nat)
    requires IsRun(events, maxActive)
    ensures Safe(After(events, maxActive), maxActive)
    decreases |events|
  {
    if events != [] {
      hide Safe, Step, Enabled;
      RunIsSafe(events[..|events| - 1], maxActive);
      StepIsSafe(After(events[..|events| - 1], maxActive), events[|events| - 1], maxActive);
    }
  }

  // ---- When a response is over --------------------------------------------------------------------

  /**
   What ends the response of request `i`, told from the events before: it was refused
   on arrival, its handler threw or returned no body, its source ended or failed before
   the client or the consumer gave up, or its cancellation finished. Of the state `s`
   only the number of requests and the counter are looked at, to tell whose arrival it is.
   */
  predicate EndsNow(before: seq<Event>, s: State, e: Event, i: nat, maxActive: nat) {
    match e
    case Arrive(aborted, tooLong) => (aborted || tooLong) && |s.requests| == i && s.active < maxActive
    case HandlerThrows(j) => j == i
    case HandlerReturns(j, hasBody) => j == i && !hasBody && Exceed(i) !in before
    case ReadReturns(j, read) => j == i && read != Chunk && Abort(i) !in before && ConsumerCancels(i) !in before
    case CancelFinishes(j) => j == i
    case Abort(_) => false
    case Exceed(_) => false
    case Pull(_) => false
    case ConsumerCancels(_) => false
  }

  ghost predicate Over(events: seq<Event>, i: nat, maxActive: nat)
    requires IsRun(events, maxActive)
    decreases |events|
  {
    events != [] &&
    var before := events[..|events| - 1];
    Over(before, i, maxActive) || EndsNow(before, After(before, maxActive), events[|events| - 1], i, maxActive)
  }

  predicate Concerns(e: Event, i: nat) {
    !e.Arrive? && e.i == i
  }

  /** What the flags of a request say about the events so far. */
  predicate Reflects(events: seq<Event>, r: Request, i: nat) {
    && (r.exceeded <==> Exceed(i) in events)
    && (r.phase == Handling || r.phase == Streaming ==> (r.aborted <==> Abort(i) in events))
    && (r.phase == Handling ==> ConsumerCancels(i) !in events)
    && (r.phase == Streaming && !r.released ==>
          (r.cancellation == NotStarted <==> Abort(i) !in events && ConsumerCancels(i) !in events))
    && (r.cancellation != NotStarted ==> Abort(i) in events || ConsumerCancels(i) in events)
  }

  /** The flags reflect the events, the slot has been given back if the response is over, and nothing concerns later requests. */
  ghost predicate Recorded(events: seq<Event>, s: State, i: nat, over: bool) {
    if i < |s.requests| then Reflects(events, s.requests[i], i) && (s.requests[i].released <==> over)
    else !over && forall e :: e in events ==> !Concerns(e, i)
  }

  lemma OthersRecorded(before: seq<Event>, s: State, e: Event, i: nat, over: bool, maxActive: nat)
    requires Enabled(s, e) && Recorded(before, s, i, over) && !Concerns(e, i) && !e.Arrive?
    ensures Recorded(before + [e], Step(s, e, maxActive), i, over)
  {
    hide Consistent;
    assert i < |s.requests| ==> Step(s, e, maxActive).requests[i] == s.requests[i];
    assert forall x :: x in before + [e] <==> x in before || x == e;
  }

  lemma ArrivalRecorded(before: seq<Event>, s: State, e: Event, i: nat, over: bool, maxActive: nat)
    requires e.Arrive? && Recorded(before, s, i, over)
    ensures Recorded(before + [e], Step(s, e, maxActive), i, over || EndsNow(before, s, e, i, maxActive))
  {
    assert forall x :: x in before + [e] <==> x in before || x == e;
    assert i < |s.requests| ==> Step(s, e, maxActive).requests[i] == s.requests[i];
    assert Concerns(Exceed(i), i) && Concerns(Abort(i), i) && Concerns(ConsumerCancels(i), i);
  }

  lemma OwnRecorded(before: seq<Event>, s: State, e: Event, i: nat, over: bool, maxActive: nat)
    requires Concerns(e, i) && i < |s.requests| && Enabled(s, e)
    requires Consistent(s.requests[i]) && Recorded(before, s, i, over)
    ensures Recorded(before + [e], Step(s, e, maxActive), i, over || EndsNow(before, s, e, i, maxActive))
  {
    assert forall x :: x in before + [e] <==> x in before || x == e;
  }

  lemma {:induction false} RunRecorded(events: seq<Event>, i: nat, maxActive: nat)
    requires IsRun(events, maxActive)
    ensures Recorded(events, After(events, maxActive), i, Over(events, i, maxActive))
    decreases |events|
  {
    if events != [] {
      hide Recorded, Reflects, Consistent, Step;
      var before, e := events[..|events| - 1], events[|events| - 1];
      assert before + [e] == events;
      RunRecorded(before, i, maxActive);
      RunIsSafe(before, maxActive);
      var s, over := After(before, maxActive), Over(before, i, maxActive);
      if e.Arrive? {
        ArrivalRecorded(before, s, e, i, over, maxActive);
      } else if Concerns(e, i) {
        OwnRecorded(before, s, e, i, over, maxActive);
      } else {
        OthersRecorded(before, s, e, i, over, maxActive);
      }
    }
  }

  /** A request has given its slot back exactly if its response is over. */
  lemma ReleasedIffOver(events: seq<Event>, maxActive: nat, i: nat)
    requires IsRun(events, maxActive) && i < |After(events, maxActive).requests|
    ensures After(events, maxActive).requests[i].released <==> Over(events, i, maxActive)
  {
    RunRecorded(events, i, maxActive);
  }

  /** The admitted requests whose response is not over. */
  ghost function OpenOnes(events: seq<Event>, maxActive: nat): set<nat>
    requires IsRun(events, maxActive)
  {
    set i: nat | i < |After(events, maxActive).requests| && !Over(events, i, maxActive)
  }

  /** So the counter is their number. */
  lemma ActiveIsOpen(events: seq<Event>, maxActive: nat)
    requires IsRun(events, maxActive)
    ensures After(events, maxActive).active == |OpenOnes(events, maxActive)|
  {
    hide Over, After, IsRun, Held, Consistent;
    var s := After(events, maxActive);
    RunIsSafe(events, maxActive);
    HeldIsSize(s.requests);
    forall i: nat ensures i in OpenOnes(events, maxActive) <==> i in HoldersOf(s.requests) {
      if i < |s.requests| { ReleasedIffOver(events, maxActive, i); }
    }
    assert OpenOnes(events, maxActive) == HoldersOf(s.requests);
  }

  function HoldersOf(requests: seq<Request>): set<nat> {
    set i: nat | i < |requests| && !requests[i].released
  }

  lemma {:induction false} HeldIsSize(requests: seq<Request>)
    ensures Held(requests) == |HoldersOf(requests)|
  {
    if requests != [] {
      var n := |requests| - 1;
      HeldIsSize(requests[..n]);
      assert HoldersOf(requests) == HoldersOf(requests[..n]) + if requests[n].released then {} else {n};
    }
  }

  /** A slot is given back at most once, and a request that has given it back never holds one again. */
  lemma SlotsMoveOnce(s: State, e: Event, maxActive: nat)
    requires Enabled(s, e)
    ensures |s.requests| <= |Step(s, e, maxActive).requests|
    ensures forall i :: 0 <= i < |s.requests| && s.requests[i].released ==> Step(s, e, maxActive).requests[i].released
    ensures e.Arrive? || (Step(s, e, maxActive).active == s.active
              <==> forall i :: 0 <= i < |s.requests| ==> Step(s, e, maxActive).requests[i].released == s.requests[i].released)
  {
  }

  /** An arrival is turned away exactly when as many responses as the limit allows are not over. */
  lemma TurnedAwayWhenFull(events: seq<Event>, maxActive: nat, aborted: bool, tooLong: bool)
    requires IsRun(events, maxActive)
    ensures Step(After(events, maxActive), Arrive(aborted, tooLong), maxActive) == After(events, maxActive)
       <==> |OpenOnes(events, maxActive)| == maxActive
  {
    RunIsSafe(events, maxActive);
    ActiveIsOpen(events, maxActive);
  }

  /** After an abort or a cancel the slot is held until the cancellation has finished, however much is read meanwhile. */
  lemma CancellationKeepsSlot(events: seq<Event>, maxActive: nat, i: nat, e: Event)
    requires IsRun(events, maxActive) && i < |After(events, maxActive).requests|
    requires After(events, maxActive).requests[i].cancellation == Running && !After(events, maxActive).requests[i].released
    requires Enabled(After(events, maxActive), e)
    ensures Step(After(events, maxActive), e, maxActive).requests[i].released <==> e == CancelFinishes(i)
  {
    RunIsSafe(events, maxActive);
    hide IsRun, After, Step, Enabled, Held;
    CancellationHolds(After(events, maxActive), i, e, maxActive);
  }

  lemma CancellationHolds(s: State, i: nat, e: Event, maxActive: nat)
    requires i < |s.requests| && Consistent(s.requests[i]) && Enabled(s, e)
    requires s.requests[i].cancellation == Running && !s.requests[i].released
    ensures i < |Step(s, e, maxActive).requests|
    ensures Step(s, e, maxActive).requests[i].released <==> e == CancelFinishes(i)
  {
  }

  /** A client abort of a streaming response that holds its slot always starts its cancellation. */
  lemma AbortCancels(events: seq<Event>, maxActive: nat, i: nat)
    requires IsRun(events, maxActive) && i < |After(events, maxActive).requests|
    ensures var r := After(events, maxActive).requests[i];
            r.phase == Streaming && r.aborted && !r.released ==> r.cancellation == Running
  {
    RunIsSafe(events, maxActive);
  }

  // ---- What the client is told --------------------------------------------------------------------------

  /** How an event answers request `i`, told from the events before. */
  function AnswerNow(before: seq<Event>, s: State, e: Event, i: nat, maxActive: nat): Answer {
    match e
    case Arrive(aborted, tooLong) =>
      if |s.requests| != i || s.active >= maxActive then Open else if aborted then Thrown else if tooLong then TooLarge else Open
    case HandlerReturns(j, _) => if j != i then Open else if Exceed(i) in before then TooLarge else FromHandler
    case HandlerThrows(j) => if j != i then Open else if Exceed(i) in before then TooLarge else Thrown
    case _ => Open
  }

  /** The first answer in the run. */
  ghost function AnswerIn(events: seq<Event>, i: nat, maxActive: nat): Answer
    requires IsRun(events, maxActive)
    decreases |events|
  {
    if events == [] then Open
    else
      var before := events[..|events| - 1];
      if AnswerIn(before, i, maxActive) != Open then AnswerIn(before, i, maxActive)
      else AnswerNow(before, After(before, maxActive), events[|events| - 1], i, maxActive)
  }

  /** The outgoing stream takes no more pulls: the consumer has cancelled, the source is at its end, or the client has gone. */
  predicate ClosesNow(before: seq<Event>, e: Event, i: nat) {
    match e
    case ConsumerCancels(j) => j == i
    case Pull(j) => j == i && Abort(i) in before
    case ReadReturns(j, read) => j == i && (read != Chunk || Abort(i) in before)
    case _ => false
  }

  predicate ClosedIn(events: seq<Event>, i: nat) {
    events != [] && (ClosedIn(events[..|events| - 1], i) || ClosesNow(events[..|events| - 1], events[|events| - 1], i))
  }

  /** A pull has asked the source and has not been answered. */
  predicate ReadingIn(events: seq<Event>, i: nat) {
    events != [] &&
    var before := events[..|events| - 1];
    match events[|events| - 1]
    case Pull(j) => if j == i then Abort(i) !in before else ReadingIn(before, i)
    case ReadReturns(j, _) => j != i && ReadingIn(before, i)
    case _ => ReadingIn(before, i)
  }

  ghost predicate Told(s: State, i: nat, answer: Answer, closed: bool, reading: bool) {
    if i < |s.requests| then s.requests[i].answer == answer && s.requests[i].closed == closed && s.requests[i].reading == reading
    else answer == Open && !closed && !reading
  }

  lemma ToldNext(before: seq<Event>, s: State, e: Event, i: nat, maxActive: nat, answer: Answer, closed: bool, reading: bool)
    requires Enabled(s, e) && Told(s, i, answer, closed, reading)
    requires i < |s.requests| ==> Reflects(before, s.requests[i], i) && Consistent(s.requests[i])
    ensures Told(Step(s, e, maxActive), i, if answer != Open then answer else AnswerNow(before, s, e, i, maxActive),
                 closed || ClosesNow(before, e, i),
                 if e == Pull(i) then Abort(i) !in before else reading && !(e.ReadReturns? && e.i == i))
  {
  }

  /** The answer a request has been given, whether its stream is closed and whether it is being read, told from the events. */
  lemma {:induction false} ToldIs(events: seq<Event>, i: nat, maxActive: nat)
    requires IsRun(events, maxActive)
    ensures Told(After(events, maxActive), i, AnswerIn(events, i, maxActive), ClosedIn(events, i), ReadingIn(events, i))
    decreases |events|
  {
    if events != [] {
      hide Told, Step, ClosesNow, AnswerNow, Reflects, Consistent;
      var before, e := events[..|events| - 1], events[|events| - 1];
      ToldIs(before, i, maxActive);
      RunIsSafe(before, maxActive);
      RunRecorded(before, i, maxActive);
      ToldNext(before, After(before, maxActive), e, i, maxActive, AnswerIn(before, i, maxActive), ClosedIn(before, i), ReadingIn(before, i));
    } else {
      assert Told(State(0, []), i, Open, false, false);
    }
  }

  // ---- The middleware ----------------------------------------------------------------------------

  class Middleware {
    const maxActive: nat
    var active: int
    var requests: seq<Request>

    constructor (maxActive: nat)
      ensures Now() == State(0, []) && this.maxActive == maxActive
    {
      this.maxActive, active, requests := maxActive, 0, [];
    }

    ghost function Now(): State
      reads this
    {
      State(active, requests)
    }

    method ReleaseSlot(i: nat)
      requires i < |requests|
      modifies this
      ensures Now() == Release(old(Now()), i)
    {
      if requests[i].released { return; }
      requests := requests[i := requests[i].(released := true)];
      active := active - 1;
    }

    method StartCancellation(i: nat)
      requires i < |requests|
      modifies this
      ensures Now() == State(old(active), old(requests)[i := CancelResponse(old(requests)[i])])
    {
      if requests[i].cancellation == NotStarted {
        requests := requests[i := requests[i].(cancellation := Running)];
      }
    }

    /** From the arrival of a request to the call of its handler. */
    method OnArrive(aborted: bool, declaredTooLong: bool) returns (admitted: bool)
      modifies this
      ensures admitted == (old(active) < maxActive)
      ensures Now() == Step(old(Now()), Arrive(aborted, declaredTooLong), maxActive)
    {
      if active >= maxActive { return false; }
      active := active + 1;
      requests := requests + [ADMITTED.(aborted := aborted)];
      var i := |requests| - 1;
      if aborted {
        requests := requests[i := requests[i].(phase := Failed, answer := Thrown)];
        ReleaseSlot(i);
      } else if declaredTooLong {
        requests := requests[i := requests[i].(phase := Failed, answer := TooLarge)];
        ReleaseSlot(i);
      }
      return true;
    }

    method OnAbort(i: nat)
      requires Enabled(Now(), Abort(i))
      modifies this
      ensures Now() == Step(old(Now()), Abort(i), maxActive)
    {
      requests := requests[i := requests[i].(aborted := true)];
      if !requests[i].released && requests[i].phase == Streaming { StartCancellation(i); }
    }

    method OnHandlerReturns(i: nat, hasBody: bool)
      requires Enabled(Now(), HandlerReturns(i, hasBody))
      modifies this
      ensures Now() == Step(old(Now()), HandlerReturns(i, hasBody), maxActive)
    {
      var exceeded := requests[i].exceeded;
      requests := requests[i := requests[i].(answer := if exceeded then TooLarge else FromHandler)];
      if !exceeded && !hasBody {
        requests := requests[i := requests[i].(phase := NoBody)];
        ReleaseSlot(i);
        return;
      }
      requests := requests[i := requests[i].(phase := Streaming)];
      if requests[i].aborted { StartCancellation(i); }
    }

    method OnHandlerThrows(i: nat)
      requires Enabled(Now(), HandlerThrows(i))
      modifies this
      ensures Now() == Step(old(Now()), HandlerThrows(i), maxActive)
    {
      requests := requests[i := requests[i].(phase := Failed, answer := if requests[i].exceeded then TooLarge else Thrown)];
      ReleaseSlot(i);
    }

    /** `pull`, up to its await. */
    method OnPull(i: nat)
      requires Enabled(Now(), Pull(i))
      modifies this
      ensures Now() == Step(old(Now()), Pull(i), maxActive)
    {
      if requests[i].aborted {
        StartCancellation(i);
        requests := requests[i := requests[i].(closed := true)];
      } else {
        requests := requests[i := requests[i].(reading := true)];
      }
    }

    /** `pull`, from its await on. */
    method OnRead(i: nat, read: Read)
      requires Enabled(Now(), ReadReturns(i, read))
      modifies this
      ensures Now() == Step(old(Now()), ReadReturns(i, read), maxActive)
    {
      requests := requests[i := requests[i].(reading := false)];
      if requests[i].aborted {
        StartCancellation(i);
        requests := requests[i := requests[i].(closed := true)];
      } else if read != Chunk {
        requests := requests[i := requests[i].(closed := true)];
        if requests[i].cancellation == NotStarted {
          ReleaseSlot(i);
        }
      }
    }

    /** The consumer cancels the outgoing stream. */
    method OnCancel(i: nat)
      requires Enabled(Now(), ConsumerCancels(i))
      modifies this
      ensures Now() == Step(old(Now()), ConsumerCancels(i), maxActive)
    {
      requests := requests[i := requests[i].(closed := true)];
      StartCancellation(i);
    }

    method OnCancelFinishes(i: nat)
      requires Enabled(Now(), CancelFinishes(i))
      modifies this
      ensures Now() == Step(old(Now()), CancelFinishes(i), maxActive)
    {
      requests := requests[i := requests[i].(cancellation := Finished)];
      ReleaseSlot(i);
    }
  }
}
