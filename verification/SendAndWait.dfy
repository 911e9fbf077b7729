/** Go `SendAndWait` running beside the event bus of its session: it subscribes, sends, waits for an idle
    event, a session error or the deadline, and unsubscribes. Every interleaving with the bus is a run. */
module SendAndWait {
  import opened Wrappers
  import opened SessionEvents
  import B = EventBus

  datatype Outcome =
    | Reply(last: Option<SessionEvent>)
    | SessionFailed(message: string)
    | SendFailed(message: string)
    | DeadlineExceeded

  datatype Phase =
    | NotStarted
    | Sending
    | Selecting
    | ReadingResult
    | Leaving(outcome: Outcome)
    | Returned(outcome: Outcome)

  /** Locals of the call: the latest assistant message and the two one-slot channels. `readAt` records how
      many events the subscription had been handed when the result was read. */
  datatype Waiter = Waiter(
    phase: Phase,
    id: nat,
    last: Option<SessionEvent>,
    idle: bool,
    error: Option<string>,
    readAt: nat)

  datatype World = World(bus: B.Bus, waiter: Waiter)

  datatype Action =
    | BusStep(step: B.Action)
    | Subscribe(fn: B.Callback)
    | SendOk
    | SendFail(message: string)
    | TakeIdle
    | ReadResult
    | TakeError
    | Deadline
    | Unsubscribe

  function Init(): World {
    World(B.Init(), Waiter(NotStarted, 0, None, false, None, 0))
  }

  /** The subscribed handler: full slots are left as they are. */
  function OnEvent(w: Waiter, e: SessionEvent): Waiter {
    match e
    case AssistantMessage(_) => w.(last := Some(e))
    case SessionIdle => w.(idle := true)
    case SessionError(m) => if w.error.None? then w.(error := Some("session error: " + m)) else w
    case _ => w
  }

  /** The event a bus step hands to registration `id`, if it does. */
  function Handed(b: B.Bus, step: B.Action, id: nat): seq<SessionEvent> {
    if step.CallNext? && B.Enabled(b, step) && b.consumer.snapshot[b.consumer.next].id == id
    then [b.consumer.event] else []
  }

  predicate Enabled(w: World, a: Action) {
    match a
    case BusStep(_) => true
    case Subscribe(_) => w.waiter.phase.NotStarted?
    case SendOk => w.waiter.phase.Sending?
    case SendFail(_) => w.waiter.phase.Sending?
    case TakeIdle => w.waiter.phase.Selecting? && w.waiter.idle
    case ReadResult => w.waiter.phase.ReadingResult?
    case TakeError => w.waiter.phase.Selecting? && w.waiter.error.Some?
    case Deadline => w.waiter.phase.Selecting?
    case Unsubscribe => w.waiter.phase.Leaving?
  }

  function Next(w: World, a: Action): World {
    if !Enabled(w, a) then w else
    var p := w.waiter;
    match a
    case BusStep(step) =>
      var handed := if p.phase.NotStarted? then [] else Handed(w.bus, step, p.id);
      World(B.Next(w.bus, step), if handed == [] then p else OnEvent(p, handed[0]))
    case Subscribe(fn) =>
      World(B.Next(w.bus, B.On(fn)), p.(phase := Sending, id := w.bus.nextId))
    case SendOk => w.(waiter := p.(phase := Selecting))
    case SendFail(m) => w.(waiter := p.(phase := Leaving(SendFailed(m))))
    case TakeIdle => w.(waiter := p.(phase := ReadingResult, idle := false))
    case ReadResult =>
      w.(waiter := p.(phase := Leaving(Reply(p.last)), readAt := |B.Seen(w.bus.calls, p.id)|))
    case TakeError => w.(waiter := p.(phase := Leaving(SessionFailed(p.error.value)), error := None))
    case Deadline => w.(waiter := p.(phase := Leaving(DeadlineExceeded)))
    case Unsubscribe =>
      World(B.Next(w.bus, B.Unsubscribe(p.id)), p.(phase := Returned(p.phase.outcome)))
  }

  function Exec(w: World, actions: seq<Action>): World
    decreases |actions|
  {
    if actions == [] then w else Exec(Next(w, actions[0]), actions[1..])
  }

  // ---------- reference definitions over the events handed to the subscription ----------

  function LastMessage(s: seq<SessionEvent>): Option<SessionEvent> {
    if s == [] then None
    else if s[|s| - 1].AssistantMessage? then Some(s[|s| - 1])
    else LastMessage(s[..|s| - 1])
  }

  function FirstError(s: seq<SessionEvent>): Option<string> {
    if s == [] then None
    else if s[0].SessionError? then Some("session error: " + s[0].message)
    else FirstError(s[1..])
  }

  lemma {:induction false} FirstErrorExtends(s: seq<SessionEvent>, t: seq<SessionEvent>)
    ensures FirstError(s + t) == if FirstError(s).Some? then FirstError(s) else FirstError(t)
    decreases |s|
  {
    if s == [] {
      assert s + t == t;
    } else {
      assert (s + t)[0] == s[0] && (s + t)[1..] == s[1..] + t;
      FirstErrorExtends(s[1..], t);
    }
  }

  /** The first error of `s` names the message of a session error of `s` before which `s` holds no other. */
  lemma {:induction false} FirstErrorIsFirst(s: seq<SessionEvent>)
    ensures FirstError(s).None? ==> forall i :: 0 <= i < |s| ==> !s[i].SessionError?
    ensures FirstError(s).Some? ==>
      exists k :: 0 <= k < |s| && s[k].SessionError? && FirstError(s).value == "session error: " + s[k].message
        && forall i :: 0 <= i < k ==> !s[i].SessionError?
  {
    if s != [] && !s[0].SessionError? {
      var t := s[1..];
      FirstErrorIsFirst(t);
      if FirstError(t).Some? {
        var k :| 0 <= k < |t| && t[k].SessionError? && FirstError(t).value == "session error: " + t[k].message
          && forall i :: 0 <= i < k ==> !t[i].SessionError?;
        assert s[k + 1] == t[k];
        assert forall i :: 0 < i < k + 1 ==> s[i] == t[i - 1];
      } else {
        assert forall i :: 0 < i < |s| ==> s[i] == t[i - 1];
      }
    }
  }

  lemma LastMessageAppend(s: seq<SessionEvent>, e: SessionEvent)
    ensures LastMessage(s + [e]) == if e.AssistantMessage? then Some(e) else LastMessage(s)
  {
    assert (s + [e])[..|s|] == s;
  }

  /** The last message of `s` is a message of `s` after which `s` holds no other. */
  lemma {:induction false} LastMessageIsLast(s: seq<SessionEvent>)
    ensures LastMessage(s).None? ==> forall i :: 0 <= i < |s| ==> !s[i].AssistantMessage?
    ensures LastMessage(s).Some? ==>
      exists k :: 0 <= k < |s| && s[k].AssistantMessage? && LastMessage(s) == Some(s[k])
        && forall i :: k < i < |s| ==> !s[i].AssistantMessage?
  {
    if s != [] && !s[|s| - 1].AssistantMessage? {
      var t := s[..|s| - 1];
      LastMessageIsLast(t);
      if LastMessage(t).Some? {
        var k :| 0 <= k < |t| && t[k].AssistantMessage? && LastMessage(t) == Some(t[k])
          && forall i :: k < i < |t| ==> !t[i].AssistantMessage?;
        assert s[k] == t[k] && forall i :: k < i < |s| ==> !s[i].AssistantMessage?;
      }
    }
  }

  // ---------- the invariant ----------

  /** The locals against the events handed over so far. */
  ghost predicate LocalsInv(p: Waiter, seen: seq<SessionEvent>) {
    && p.last == LastMessage(seen)
    && (p.idle ==> SessionIdle in seen)
    && (p.phase.Sending? || p.phase.Selecting? ==> (p.idle <==> SessionIdle in seen))
    && (p.phase.Sending? || p.phase.Selecting? ==> p.error == FirstError(seen))
    && (p.phase.ReadingResult? ==> SessionIdle in seen)
    && (p.phase.Leaving? || p.phase.Returned? ==> OutcomeInv(p, seen))
  }

  ghost predicate OutcomeInv(p: Waiter, seen: seq<SessionEvent>)
    requires p.phase.Leaving? || p.phase.Returned?
  {
    match p.phase.outcome
    case Reply(last) => p.readAt <= |seen| && SessionIdle in seen[..p.readAt] && last == LastMessage(seen[..p.readAt])
    case SessionFailed(m) => FirstError(seen) == Some(m)
    case _ => true
  }

  ghost predicate WaiterInv(w: World) {
    if w.waiter.phase.NotStarted? then
      w.waiter.last == None && !w.waiter.idle && w.waiter.error == None
    else
      && w.waiter.id < |w.bus.spans|
      && LocalsInv(w.waiter, B.Seen(w.bus.calls, w.waiter.id))
      && (w.waiter.phase.Returned? ==> w.bus.spans[w.waiter.id].until.Some?)
  }

  lemma OutcomeKept(p: Waiter, seen: seq<SessionEvent>, e: SessionEvent)
    requires (p.phase.Leaving? || p.phase.Returned?) && OutcomeInv(p, seen)
    ensures OutcomeInv(OnEvent(p, e), seen + [e])
  {
    FirstErrorExtends(seen, [e]);
    hide LastMessage, FirstError;
    if p.phase.outcome.Reply? {
      assert (seen + [e])[..p.readAt] == seen[..p.readAt];
    }
  }

  lemma LocalsKept(p: Waiter, seen: seq<SessionEvent>, e: SessionEvent)
    requires !p.phase.NotStarted? && LocalsInv(p, seen)
    ensures LocalsInv(OnEvent(p, e), seen + [e])
  {
    LastMessageAppend(seen, e);
    FirstErrorExtends(seen, [e]);
    assert [e][1..] == [];
    assert FirstError([e]) == if e.SessionError? then Some("session error: " + e.message) else None;
    if p.phase.Leaving? || p.phase.Returned? {
      OutcomeKept(p, seen, e);
    }
    hide LastMessage, FirstError, OutcomeInv;
    assert SessionIdle in seen + [e] <==> SessionIdle in seen || e == SessionIdle;
  }

  /** A bus step adds to what a registration has seen exactly the event it hands over. */
  lemma BusStepSeen(b: B.Bus, step: B.Action, id: nat)
    requires B.Inv(b) && id < |b.spans|
    ensures var c := B.Next(b, step);
      && id < |c.spans|
      && B.Seen(c.calls, id) == B.Seen(b.calls, id) + Handed(b, step, id)
      && (b.spans[id].until.Some? ==> c.spans[id].until.Some?)
  {
    if step.CallNext? && B.Enabled(b, step) {
      B.SeenAppend(b.calls, B.Next(b, step).calls[|b.calls|], id);
    }
  }

  lemma NewRegistrationSawNothing(b: B.Bus)
    requires B.Inv(b)
    ensures B.Seen(b.calls, b.nextId) == [] && |b.spans| == b.nextId
  {
    B.SeenNothing(b.calls, b.nextId);
  }

  lemma NextWaiterBusStep(w: World, step: B.Action)
    requires B.Inv(w.bus) && WaiterInv(w)
    ensures WaiterInv(Next(w, BusStep(step)))
  {
    hide B.Seen, B.Inv, B.Next, B.Enabled, LastMessage, FirstError, LocalsInv, OnEvent;
    var p := w.waiter;
    if !p.phase.NotStarted? {
      BusStepSeen(w.bus, step, p.id);
      var seen := B.Seen(w.bus.calls, p.id);
      var handed := Handed(w.bus, step, p.id);
      if handed == [] {
        assert seen + [] == seen;
      } else {
        assert handed == [handed[0]];
        LocalsKept(p, seen, handed[0]);
        PhaseKept(p, handed[0]);
      }
    }
  }

  lemma PhaseKept(p: Waiter, e: SessionEvent)
    ensures OnEvent(p, e).phase == p.phase && OnEvent(p, e).id == p.id
  {
  }

  lemma NextWaiterSubscribe(w: World, fn: B.Callback)
    requires B.Inv(w.bus) && WaiterInv(w)
    ensures WaiterInv(Next(w, Subscribe(fn)))
  {
    hide B.Seen, B.Inv;
    NewRegistrationSawNothing(w.bus);
  }

  lemma NextWaiterUnsubscribe(w: World)
    requires B.Inv(w.bus) && WaiterInv(w) && w.waiter.phase.Leaving?
    ensures WaiterInv(Next(w, Unsubscribe))
  {
    var p := w.waiter;
    BusStepSeen(w.bus, B.Unsubscribe(p.id), p.id);
    B.UnsubscribeEndsSpan(w.bus, p.id);
    hide B.Seen, B.Inv, B.Next, LastMessage, FirstError, OutcomeInv;
    var seen := B.Seen(w.bus.calls, p.id);
    assert seen + [] == seen;
    assert OutcomeInv(p, seen);
    SameOutcome(p, p.(phase := Returned(p.phase.outcome)), seen);
  }

  lemma SameOutcome(p: Waiter, q: Waiter, seen: seq<SessionEvent>)
    requires p.phase.Leaving? && OutcomeInv(p, seen)
    requires q == p.(phase := Returned(p.phase.outcome))
    ensures OutcomeInv(q, seen)
  {
  }

  lemma NextWaiterLocal(w: World, a: Action)
    requires WaiterInv(w) && Enabled(w, a)
    requires !a.BusStep? && !a.Subscribe? && !a.Unsubscribe?
    ensures WaiterInv(Next(w, a))
  {
    hide B.Seen, B.Inv, B.Next, LastMessage, FirstError;
    var seen := B.Seen(w.bus.calls, w.waiter.id);
    assert seen[..|seen|] == seen;
  }

  lemma NextWaiter(w: World, a: Action)
    requires B.Inv(w.bus) && WaiterInv(w)
    ensures WaiterInv(Next(w, a))
  {
    hide B.Inv, WaiterInv;
    if Enabled(w, a) {
      match a {
        case BusStep(step) => NextWaiterBusStep(w, step);
        case Subscribe(fn) => NextWaiterSubscribe(w, fn);
        case Unsubscribe => NextWaiterUnsubscribe(w);
        case _ => NextWaiterLocal(w, a);
      }
    }
  }

  lemma NextBus(w: World, a: Action)
    requires B.Inv(w.bus)
    ensures B.Inv(Next(w, a).bus)
  {
    match a {
      case BusStep(step) => B.NextInv(w.bus, step);
      case Subscribe(fn) => B.NextInv(w.bus, B.On(fn));
      case Unsubscribe => B.NextInv(w.bus, B.Unsubscribe(w.waiter.id));
      case _ =>
    }
  }

  lemma {:induction false} ExecInv(w: World, actions: seq<Action>)
    requires B.Inv(w.bus) && WaiterInv(w)
    ensures B.Inv(Exec(w, actions).bus) && WaiterInv(Exec(w, actions))
    decreases |actions|
  {
    if actions != [] {
      NextBus(w, actions[0]);
      NextWaiter(w, actions[0]);
      ExecInv(Next(w, actions[0]), actions[1..]);
    }
  }

  /** A call is never stuck: from wherever it is, a run of its own steps, at worst through the deadline,
      makes it return, whatever the session does or does not deliver. */
  lemma CallCanReturn(w: World) returns (actions: seq<Action>)
    requires !w.waiter.phase.NotStarted?
    ensures forall a :: a in actions ==> a in {SendOk, Deadline, ReadResult, Unsubscribe}
    ensures Exec(w, actions).waiter.phase.Returned?
    ensures w.waiter.phase.Leaving? || w.waiter.phase.Returned? ==>
      Exec(w, actions).waiter.phase.outcome == w.waiter.phase.outcome
    decreases match w.waiter.phase
      case Sending => 3
      case Selecting => 2
      case ReadingResult => 2
      case Leaving(_) => 1
      case _ => 0
  {
    if w.waiter.phase.Returned? {
      actions := [];
    } else {
      var a := match w.waiter.phase
        case Sending => SendOk
        case Selecting => Deadline
        case ReadingResult => ReadResult
        case _ => Unsubscribe;
      var rest := CallCanReturn(Next(w, a));
      actions := [a] + rest;
      assert actions[1..] == rest;
    }
  }

  /** A step of the call itself, as opposed to one of the session. */
  predicate Own(a: Action) {
    !a.BusStep?
  }

  predicate Replied(w: World) {
    w.waiter.phase.Returned? && w.waiter.phase.outcome.Reply?
  }

  /** A call that waits with an idle event delivered can return success at once, with the latest message. */
  lemma IdleCallReplies(w: World)
    requires w.waiter.phase.Selecting? && w.waiter.idle
    ensures var v := Exec(w, [TakeIdle, ReadResult, Unsubscribe]);
      v.waiter.phase == Returned(Reply(w.waiter.last))
  {
    var s := [TakeIdle, ReadResult, Unsubscribe];
    hide B.Next, B.Seen;
    assert s[1..] == [ReadResult, Unsubscribe] && s[1..][1..] == [Unsubscribe] && s[1..][1..][1..] == [];
    var w1 := Next(w, TakeIdle);
    var w2 := Next(w1, ReadResult);
    var w3 := Next(w2, Unsubscribe);
    assert Exec(w, s) == Exec(w1, s[1..]) == Exec(w2, s[1..][1..]) == Exec(w3, []);
  }

  /** Without an idle event in its slot, the call's own steps lead to no reply. */
  predicate NoReplyAhead(p: Waiter) {
    match p.phase
    case Selecting => !p.idle
    case Leaving(o) => !o.Reply?
    case Returned(o) => !o.Reply?
    case _ => false
  }

  lemma {:induction false} OwnStepsDoNotReply(w: World, actions: seq<Action>)
    requires NoReplyAhead(w.waiter) && forall a :: a in actions ==> Own(a)
    ensures NoReplyAhead(Exec(w, actions).waiter)
    decreases |actions|
  {
    hide B.Next, B.Seen;
    if actions != [] {
      assert Own(actions[0]);
      assert NoReplyAhead(Next(w, actions[0]).waiter);
      OwnStepsDoNotReply(Next(w, actions[0]), actions[1..]);
    }
  }

  /** A waiting call can return success by its own steps if and only if an idle event has been delivered;
      otherwise the session has to deliver one first. */
  lemma RepliesExactly(w: World)
    requires w.waiter.phase.Selecting?
    ensures (exists actions :: (forall a :: a in actions ==> Own(a)) && Replied(Exec(w, actions))) <==> w.waiter.idle
  {
    if w.waiter.idle {
      IdleCallReplies(w);
      var s := [TakeIdle, ReadResult, Unsubscribe];
      assert (forall a :: a in s ==> Own(a)) && Replied(Exec(w, s));
    } else {
      forall actions | forall a :: a in actions ==> Own(a) ensures !Replied(Exec(w, actions)) {
        OwnStepsDoNotReply(w, actions);
      }
    }
  }

  // ---------- what every run keeps ----------

  /** In every run a waiting call can return success by its own steps if and only if an idle event is among the
      events handed to its subscription. */
  lemma WaitingCallReplies(actions: seq<Action>)
    requires Exec(Init(), actions).waiter.phase.Selecting?
    ensures var w := Exec(Init(), actions);
      (exists own :: (forall a :: a in own ==> Own(a)) && Replied(Exec(w, own)))
        <==> SessionIdle in B.Seen(w.bus.calls, w.waiter.id)
  {
    ExecInv(Init(), actions);
    RepliesExactly(Exec(Init(), actions));
    hide Exec, B.Seen, B.Inv;
  }

  /** What a returned call tells its caller, over the events handed to its subscription. */
  ghost predicate Explained(o: Outcome, seen: seq<SessionEvent>) {
    match o
    case Reply(last) => exists n :: 0 <= n <= |seen| && SessionIdle in seen[..n] && last == LastMessage(seen[..n])
    case SessionFailed(m) => FirstError(seen) == Some(m)
    case _ => true
  }

  lemma WhenReturned(w: World)
    requires B.Inv(w.bus) && WaiterInv(w) && w.waiter.phase.Returned?
    ensures w.waiter.id < |w.bus.spans|
    ensures !B.HasId(w.bus.handlers, w.waiter.id)
    ensures B.SeenAt(w.bus, w.waiter.id)
    ensures Explained(w.waiter.phase.outcome, B.Seen(w.bus.calls, w.waiter.id))
  {
    hide LastMessage, FirstError;
    assert B.SeenAt(w.bus, w.waiter.id);
  }

  /** In every run, when the call has returned its subscription is gone for good, and its outcome is read
      off the events handed to that subscription, which are one contiguous block of the received events
      starting where it subscribed: a reply means an idle event came and carries the latest message at
      some point after it; a session error is the first one handed over. */
  lemma ReturnedOutcome(actions: seq<Action>)
    requires Exec(Init(), actions).waiter.phase.Returned?
    ensures var w := Exec(Init(), actions);
      var seen := B.Seen(w.bus.calls, w.waiter.id);
      && w.waiter.id < |w.bus.spans|
      && !B.HasId(w.bus.handlers, w.waiter.id)
      && B.SeenAt(w.bus, w.waiter.id)
      && Explained(w.waiter.phase.outcome, seen)
  {
    ExecInv(Init(), actions);
    hide Exec, Init;
    WhenReturned(Exec(Init(), actions));
  }

  // ---------- the call beside the bus ----------

  /** What a step does to the session: the call registers once and unregisters once, as it leaves. */
  function OnBus(p: Waiter, a: Action): seq<B.Action> {
    match a
    case BusStep(step) => [step]
    case Subscribe(fn) => if p.phase.NotStarted? then [B.On(fn)] else []
    case Unsubscribe => if p.phase.Leaving? then [B.Unsubscribe(p.id)] else []
    case _ => []
  }

  function BusRun(w: World, actions: seq<Action>): seq<B.Action>
    decreases |actions|
  {
    if actions == [] then [] else OnBus(w.waiter, actions[0]) + BusRun(Next(w, actions[0]), actions[1..])
  }

  lemma NextOnBus(w: World, a: Action)
    ensures Next(w, a).bus == B.Exec(w.bus, OnBus(w.waiter, a))
  {
    var steps := OnBus(w.waiter, a);
    assert steps != [] ==> steps[1..] == [];
    hide B.Next, B.Seen, B.Enabled, OnEvent;
  }

  /** Apart from its one registration the call leaves the session alone: the bus beside it runs the steps of
      the session, that registration and its end, so what every run of the bus keeps holds beside the call. */
  lemma {:induction false} BusRunsBeside(w: World, actions: seq<Action>)
    ensures Exec(w, actions).bus == B.Exec(w.bus, BusRun(w, actions))
    decreases |actions|
  {
    hide Next, OnBus, B.Next;
    if actions != [] {
      var a := actions[0];
      NextOnBus(w, a);
      BusRunsBeside(Next(w, a), actions[1..]);
      B.ExecConcat(w.bus, OnBus(w.waiter, a), BusRun(Next(w, a), actions[1..]));
    }
  }

  lemma ExecSnoc(w: World, actions: seq<Action>, a: Action)
    ensures Exec(w, actions + [a]) == Next(Exec(w, actions), a)
    decreases |actions|
  {
    hide Next;
    if actions == [] {
      assert [] + [a] == [a] && [a][1..] == [];
    } else {
      assert (actions + [a])[0] == actions[0] && (actions + [a])[1..] == actions[1..] + [a];
      ExecSnoc(Next(w, actions[0]), actions[1..], a);
    }
  }

  /** Whenever it is called, the call registers a handler of its own under the next id and last in the list,
      before it sends: the registration has seen nothing so far and sees every event offered from here on. */
  lemma SubscribedBeforeSending(actions: seq<Action>, fn: B.Callback)
    requires Exec(Init(), actions).waiter.phase.NotStarted?
    ensures var b := Exec(Init(), actions).bus;
      var w := Exec(Init(), actions + [Subscribe(fn)]);
      && w.waiter.phase.Sending? && w.waiter.id == b.nextId
      && w.bus.handlers == b.handlers + [B.Entry(b.nextId, fn)]
      && w.bus.spans == b.spans + [B.Span(fn, |B.Offered(b)|, None)]
      && B.Seen(w.bus.calls, w.waiter.id) == []
  {
    ExecInv(Init(), actions);
    ExecSnoc(Init(), actions, Subscribe(fn));
    NewRegistrationSawNothing(Exec(Init(), actions).bus);
  }

  // ---------- which exit the call took ----------

  /** The steps that decide how the call ends. */
  predicate Exits(a: Action) {
    a.SendFail? || a.TakeIdle? || a.TakeError? || a.Deadline?
  }

  /** The first deciding step that a run takes. */
  function ExitOf(actions: seq<Action>): Option<Action> {
    if actions == [] then None
    else
      var front, a := actions[..|actions| - 1], actions[|actions| - 1];
      var was := ExitOf(front);
      if was.None? && Exits(a) && Enabled(Exec(Init(), front), a) then Some(a) else was
  }

  /** The run has sent the message. */
  predicate HasSent(actions: seq<Action>) {
    if actions == [] then false
    else
      var front, a := actions[..|actions| - 1], actions[|actions| - 1];
      HasSent(front) || (a.SendOk? && Enabled(Exec(Init(), front), a))
  }

  /** What each exit returns; what a reply or a session error carries is said by `Explained`. */
  predicate Means(a: Action, o: Outcome) {
    match a
    case SendFail(m) => o == SendFailed(m)
    case TakeIdle => o.Reply?
    case TakeError => o.SessionFailed?
    case Deadline => o == DeadlineExceeded
    case _ => false
  }

  predicate OnCourse(p: Phase, exit: Option<Action>, sent: bool) {
    match p
    case NotStarted => exit.None? && !sent
    case Sending => exit.None? && !sent
    case Selecting => exit.None? && sent
    case ReadingResult => exit == Some(TakeIdle) && sent
    case Leaving(o) => exit.Some? && Means(exit.value, o) && (sent <==> !exit.value.SendFail?)
    case Returned(o) => exit.Some? && Means(exit.value, o) && (sent <==> !exit.value.SendFail?)
  }

  lemma CourseStep(w: World, a: Action, exit: Option<Action>, sent: bool)
    requires OnCourse(w.waiter.phase, exit, sent)
    ensures OnCourse(Next(w, a).waiter.phase,
                     if exit.None? && Exits(a) && Enabled(w, a) then Some(a) else exit,
                     sent || (a.SendOk? && Enabled(w, a)))
  {
    hide B.Next, B.Seen;
  }

  lemma {:induction false} CourseKept(actions: seq<Action>)
    ensures OnCourse(Exec(Init(), actions).waiter.phase, ExitOf(actions), HasSent(actions))
    decreases |actions|
  {
    if actions != [] {
      var front, a := actions[..|actions| - 1], actions[|actions| - 1];
      CourseKept(front);
      assert actions == front + [a];
      ExecSnoc(Init(), front, a);
      CourseStep(Exec(Init(), front), a, ExitOf(front), HasSent(front));
      hide Exec, Next, OnCourse;
    }
  }

  /** In every run a call that has returned tells its caller which exit it took first: a failed send, with the
      send's own error and only before anything was sent, an idle event, a session error, or the deadline,
      these three only after the message was sent. */
  lemma ExitDecidesOutcome(actions: seq<Action>)
    requires Exec(Init(), actions).waiter.phase.Returned?
    ensures var o := Exec(Init(), actions).waiter.phase.outcome;
      && ExitOf(actions).Some?
      && (forall m :: o == SendFailed(m) <==> ExitOf(actions) == Some(SendFail(m)))
      && (o == DeadlineExceeded <==> ExitOf(actions) == Some(Deadline))
      && (o.Reply? <==> ExitOf(actions) == Some(TakeIdle))
      && (o.SessionFailed? <==> ExitOf(actions) == Some(TakeError))
      && (o.SendFailed? <==> !HasSent(actions))
  {
    CourseKept(actions);
    hide Exec, ExitOf, HasSent;
  }

  /** A run that takes `SendFail(m)` while sending can return nothing but that failure. */
  lemma FailedSendIsReturned(before: seq<Action>, m: string, after: seq<Action>)
    requires Exec(Init(), before).waiter.phase.Sending?
    requires Exec(Init(), before + [SendFail(m)] + after).waiter.phase.Returned?
    ensures Exec(Init(), before + [SendFail(m)] + after).waiter.phase.outcome == SendFailed(m)
  {
    CourseKept(before);
    ExitStands(before, SendFail(m), after);
    ExitDecidesOutcome(before + [SendFail(m)] + after);
  }

  lemma {:induction false} ExitStands(before: seq<Action>, a: Action, after: seq<Action>)
    requires ExitOf(before).None? && Exits(a) && Enabled(Exec(Init(), before), a)
    ensures ExitOf(before + [a] + after) == Some(a)
    decreases |after|
  {
    var all := before + [a] + after;
    if after == [] {
      assert all == before + [a] && all[..|all| - 1] == before;
    } else {
      var front := after[..|after| - 1];
      assert all[..|all| - 1] == before + [a] + front;
      ExitStands(before, a, front);
    }
  }

  /** The reply against the first idle event: it is the last message before that idle or one that came
      after it, and no message in the reply means there was none before the idle. */
  lemma ReplyNoOlderThanFirstIdle(last: Option<SessionEvent>, seen: seq<SessionEvent>, first: nat)
    requires Explained(Reply(last), seen)
    requires first < |seen| && seen[first] == SessionIdle && SessionIdle !in seen[..first]
    ensures last == LastMessage(seen[..first])
      || (last.Some? && last.value.AssistantMessage? && last.value in seen[first..])
    ensures last.None? ==> forall i :: 0 <= i < first ==> !seen[i].AssistantMessage?
  {
    var n :| 0 <= n <= |seen| && SessionIdle in seen[..n] && last == LastMessage(seen[..n]);
    var k :| 0 <= k < n && seen[..n][k] == SessionIdle;
    assert first <= k;
    LastMessageSplit(seen[..n], first);
    assert seen[..n][..first] == seen[..first];
    LastMessageIsLast(seen[..n]);
    if last != LastMessage(seen[..first]) {
      assert last.value in seen[..n][first..];
      var m :| 0 <= m < |seen[..n][first..]| && seen[..n][first..][m] == last.value;
      assert seen[first..][m] == last.value;
    }
  }

  lemma {:induction false} LastMessageSplit(s: seq<SessionEvent>, at: nat)
    requires at <= |s|
    ensures LastMessage(s) == LastMessage(s[..at])
      || (LastMessage(s).Some? && LastMessage(s).value.AssistantMessage? && LastMessage(s).value in s[at..])
  {
    if at == |s| {
      assert s[..at] == s;
    } else if s[|s| - 1].AssistantMessage? {
      assert s[at..][|s| - 1 - at] == s[|s| - 1];
    } else {
      var t := s[..|s| - 1];
      LastMessageSplit(t, at);
      assert t[..at] == s[..at];
      assert forall e :: e in t[at..] ==> e in s[at..] by {
        forall e | e in t[at..] ensures e in s[at..] {
          var i :| 0 <= i < |t[at..]| && t[at..][i] == e;
          assert s[at..][i] == e;
        }
      }
    }
  }
}
