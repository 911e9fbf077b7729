/** .NET `SendAndWaitAsync`: a handler and a cancellation callback race to complete one
    `TaskCompletionSource`, which only its first completion sets. */
module SendAndWaitAsync {
  import opened Wrappers
  import opened SessionEvents
  import opened SendAndWait

  /** What can reach the pending call: an event, or the linked token firing, which asks whether the
      caller's own token was cancelled. */
  datatype Signal = Event(event: SessionEvent) | TokenFired(callerCancelled: bool)

  datatype Completion =
    | Result(message: Option<SessionEvent>)
    | Failure(text: string)
    | TimedOut
    | Cancelled

  /** The captured locals of the call. */
  datatype Pending = Pending(last: Option<SessionEvent>, completion: Option<Completion>)

  /** Completes the source unless it already is. */
  function TrySet(p: Pending, c: Completion): Pending {
    if p.completion.None? then p.(completion := Some(c)) else p
  }

  function OnSignal(p: Pending, s: Signal): Pending {
    match s
    case Event(AssistantMessage(m)) => p.(last := Some(AssistantMessage(m)))
    case Event(SessionIdle) => TrySet(p, Result(p.last))
    case Event(SessionError(m)) => TrySet(p, Failure("Session error: " + m))
    case Event(_) => p
    case TokenFired(byCaller) => TrySet(p, if byCaller then Cancelled else TimedOut)
  }

  function Fold(signals: seq<Signal>): Pending {
    if signals == [] then Pending(None, None)
    else OnSignal(Fold(signals[..|signals| - 1]), signals[|signals| - 1])
  }

  class SendAndWaitCall {
    var lastAssistantMessage: Option<SessionEvent>
    var task: Option<Completion>

    function State(): Pending
      reads this
    {
      Pending(lastAssistantMessage, task)
    }

    constructor ()
      ensures State() == Fold([])
    {
      lastAssistantMessage, task := None, None;
    }

    method TrySetCompletion(c: Completion) returns (won: bool)
      modifies this`task
      ensures State() == TrySet(old(State()), c) && won == old(task).None?
    {
      won := task.None?;
      if won {
        task := Some(c);
      }
    }

    method Handler(evt: SessionEvent)
      modifies this
      ensures State() == OnSignal(old(State()), Event(evt))
    {
      match evt
      case AssistantMessage(_) =>
        lastAssistantMessage := Some(evt);
      case SessionIdle =>
        var _ := TrySetCompletion(Result(lastAssistantMessage));
      case SessionError(message) =>
        var _ := TrySetCompletion(Failure("Session error: " + message));
      case _ =>
    }

    method OnTokenFired(callerCancelled: bool)
      modifies this
      ensures State() == OnSignal(old(State()), TokenFired(callerCancelled))
    {
      if callerCancelled {
        var _ := TrySetCompletion(Cancelled);
      } else {
        var _ := TrySetCompletion(TimedOut);
      }
    }
  }

  /** The whole life of one pending call: what it completes with is fixed by the first terminal signal. */
  method Observe(signals: seq<Signal>) returns (completion: Option<Completion>)
    ensures completion.None? <==> forall i :: 0 <= i < |signals| ==> !Terminal(signals[i])
    ensures completion.Some? ==> exists k :: DecidedAt(signals, k, completion.value)
  {
    var call := new SendAndWaitCall();
    for i := 0 to |signals|
      invariant call.State() == Fold(signals[..i])
    {
      assert signals[..i + 1][..i] == signals[..i];
      match signals[i]
      case Event(e) => call.Handler(e);
      case TokenFired(byCaller) => call.OnTokenFired(byCaller);
    }
    assert signals[..|signals|] == signals;
    FirstTerminalDecides(signals);
    completion := call.task;
  }

  // ---------- reference: the first terminal signal decides ----------

  predicate Terminal(s: Signal) {
    s.TokenFired? || s.event.SessionIdle? || s.event.SessionError?
  }

  function EventsOf(signals: seq<Signal>): seq<SessionEvent> {
    if signals == [] then []
    else EventsOf(signals[..|signals| - 1]) +
         (match signals[|signals| - 1] case Event(e) => [e] case _ => [])
  }

  /** Position `k` holds the first terminal signal, and `c` is what it means there. */
  predicate DecidedAt(signals: seq<Signal>, k: int, c: Completion) {
    && 0 <= k < |signals| && Terminal(signals[k])
    && (forall j :: 0 <= j < k ==> !Terminal(signals[j]))
    && match signals[k]
       case Event(SessionError(m)) => c == Failure("Session error: " + m)
       case Event(_) => c == Result(LastMessage(EventsOf(signals[..k])))
       case TokenFired(byCaller) => c == if byCaller then Cancelled else TimedOut
  }

  lemma {:induction false} LastIsLastMessage(signals: seq<Signal>)
    ensures Fold(signals).last == LastMessage(EventsOf(signals))
  {
    if signals != [] {
      var front := signals[..|signals| - 1];
      LastIsLastMessage(front);
      match signals[|signals| - 1] {
        case Event(e) => LastMessageAppend(EventsOf(front), e);
        case TokenFired(_) => assert EventsOf(signals) == EventsOf(front);
      }
    }
  }

  lemma {:induction false} FirstTerminalDecides(signals: seq<Signal>)
    ensures Fold(signals).completion.None? <==> forall i :: 0 <= i < |signals| ==> !Terminal(signals[i])
    ensures Fold(signals).completion.Some? ==> exists k :: DecidedAt(signals, k, Fold(signals).completion.value)
  {
    if signals != [] {
      var n := |signals| - 1;
      var front := signals[..n];
      FirstTerminalDecides(front);
      LastIsLastMessage(front);
      if Fold(front).completion.Some? {
        var c := Fold(front).completion.value;
        var k :| DecidedAt(front, k, c);
        assert front[..k] == signals[..k];
        assert DecidedAt(signals, k, c);
      } else if Terminal(signals[n]) {
        assert forall i :: 0 <= i < n ==> front[i] == signals[i];
        assert DecidedAt(signals, n, Fold(signals).completion.value);
      }
    }
  }

  /** Once complete, nothing that arrives later changes the completion. */
  lemma {:induction false} LaterSignalsChangeNothing(signals: seq<Signal>, later: seq<Signal>)
    requires Fold(signals).completion.Some?
    ensures Fold(signals + later).completion == Fold(signals).completion
    decreases |later|
  {
    if later == [] {
      assert signals + later == signals;
    } else {
      var n := |later| - 1;
      LaterSignalsChangeNothing(signals, later[..n]);
      assert (signals + later)[..|signals + later| - 1] == signals + later[..n];
    }
  }
}
