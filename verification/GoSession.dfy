/** The Go `Session` object: its handler slice, event channel and handler tables as mutable fields.
    Every method performs steps of `EventBus` and `BroadcastDesk` and keeps the fields equal to the states
    those steps lead to, so what those modules prove of every run holds of every session. */
module GoSession {
  import opened Wrappers
  import opened SessionEvents
  import B = EventBus
  import D = BroadcastDesk

  /** One user callback invocation by the consumer loop. */
  datatype Invocation = Invocation(fn: B.Callback, event: SessionEvent)

  /** What a running callback may do to the handler list of its own session. */
  datatype Change = Subscribe(fn: B.Callback) | Cancel(id: nat)

  /** A tool or command definition; both carry an optional handler. */
  datatype Definition = Definition(name: string, handler: Option<B.Callback>)

  function Functions(entries: seq<B.Entry>): seq<B.Callback> {
    seq(|entries|, i requires 0 <= i < |entries| => entries[i].fn)
  }

  function Invocations(entries: seq<B.Entry>, event: SessionEvent): seq<Invocation> {
    seq(|entries|, i requires 0 <= i < |entries| => Invocation(entries[i].fn, event))
  }

  /** The callback invocations a sequence of handler calls amounts to. */
  function CallLog(calls: seq<B.Call>): seq<Invocation> {
    if calls == [] then []
    else
      var last := calls[|calls| - 1];
      CallLog(calls[..|calls| - 1]) + [Invocation(last.fn, last.event)]
  }

  predicate Usable(d: Definition) {
    d.name != "" && d.handler.Some?
  }

  /** `at` is the last usable definition of `name`. */
  predicate LastUsable(defs: seq<Definition>, name: string, at: int) {
    && 0 <= at < |defs| && Usable(defs[at]) && defs[at].name == name
    && forall j :: at < j < |defs| && Usable(defs[j]) ==> defs[j].name != name
  }

  /** The handler table: the last usable definition of a name wins, unusable ones are skipped. */
  method BuildTable(defs: seq<Definition>) returns (table: map<string, B.Callback>)
    ensures forall name :: name in table <==>
      name != "" && exists i :: 0 <= i < |defs| && defs[i].handler.Some? && defs[i].name == name
    ensures forall name :: name in table ==>
      exists i :: LastUsable(defs, name, i) && table[name] == defs[i].handler.value
  {
    table := map[];
    ghost var at: map<string, nat> := map[];
    for n := 0 to |defs|
      invariant at.Keys == table.Keys
      invariant forall i :: 0 <= i < n && Usable(defs[i]) ==> defs[i].name in table
      invariant forall name :: name in table ==>
        && at[name] < n && Usable(defs[at[name]]) && defs[at[name]].name == name
        && table[name] == defs[at[name]].handler.value
        && forall j :: at[name] < j < n && Usable(defs[j]) ==> defs[j].name != name
    {
      var d := defs[n];
      if d.name == "" || d.handler.None? {
        continue;
      }
      table := table[d.name := d.handler.value];
      at := at[d.name := n];
    }
    forall name | name in table
      ensures exists i :: LastUsable(defs, name, i) && table[name] == defs[i].handler.value
    {
      assert LastUsable(defs, name, at[name]);
    }
  }

  /** `append(s[:i], s[i+1:]...)` on the first `n` cells of an array. */
  method DeleteAt(a: array<B.Entry>, i: nat, n: nat)
    requires i < n <= a.Length
    modifies a
    ensures a[..n - 1] == old(a[..i]) + old(a[i + 1..n])
  {
    var j := i;
    while j + 1 < n
      invariant i <= j < n
      invariant forall k :: 0 <= k < i ==> a[k] == old(a[k])
      invariant forall k :: i <= k < j ==> a[k] == old(a[k + 1])
      invariant forall k :: j < k < n ==> a[k] == old(a[k])
    {
      a[j] := a[j + 1];
      j := j + 1;
    }
  }

  // ---------- what one step does to the parts the fields mirror ----------

  predicate OnlyHandlers(b: B.Bus, c: B.Bus) {
    && c.dispatched == b.dispatched && c.queue == b.queue && c.closed == b.closed && c.sending == b.sending
    && c.consumer == b.consumer && c.calls == b.calls
  }

  predicate OnlyChannel(b: B.Bus, c: B.Bus) {
    && c.handlers == b.handlers && c.nextId == b.nextId && c.closed == b.closed
    && c.consumer == b.consumer && c.calls == b.calls
  }

  lemma OnEffect(b: B.Bus, fn: B.Callback)
    ensures var c := B.Next(b, B.On(fn));
      && OnlyHandlers(b, c)
      && c.handlers == b.handlers + [B.Entry(b.nextId, fn)] && c.nextId == b.nextId + 1
  {
  }

  lemma UnsubscribeEffect(b: B.Bus, id: nat)
    ensures var c := B.Next(b, B.Unsubscribe(id));
      && OnlyHandlers(b, c)
      && c.handlers == B.RemoveId(b.handlers, id) && c.nextId == b.nextId
  {
  }

  /** An arrival followed by the send, or by its loss when the channel is closed. */
  lemma ArriveEffect(b: B.Bus, event: SessionEvent)
    requires b.sending.None?
    ensures var c := B.Next(B.Next(b, B.Arrive(event)), if b.closed then B.Drop else B.Enqueue);
      && OnlyChannel(b, c) && c.dispatched == b.dispatched + [event]
      && c.sending == (if !b.closed && |b.queue| >= B.CAPACITY then Some(event) else None)
      && c.queue == if b.closed || c.sending.Some? then b.queue else b.queue + [event]
  {
  }

  lemma ResumeEffect(b: B.Bus)
    requires b.sending.Some? && (b.closed || |b.queue| < B.CAPACITY)
    ensures var c := B.Next(b, if b.closed then B.Drop else B.Enqueue);
      && OnlyChannel(b, c) && c.dispatched == b.dispatched && c.sending == None
      && c.queue == b.queue + if b.closed then [] else [b.sending.value]
  {
  }

  lemma CloseEffect(b: B.Bus)
    ensures var c := B.Next(B.Next(b, B.Close), B.ClearHandlers);
      && c.dispatched == b.dispatched && c.closed && c.handlers == [] && c.nextId == b.nextId && c.queue == b.queue
      && c.sending == b.sending && c.consumer == b.consumer && c.calls == b.calls
  {
  }

  lemma CallEffect(b: B.Bus)
    requires B.Enabled(b, B.CallNext)
    ensures var c := B.Next(b, B.CallNext);
      && c.dispatched == b.dispatched && c.handlers == b.handlers && c.nextId == b.nextId && c.queue == b.queue
      && c.closed == b.closed && c.sending == b.sending
      && |c.calls| == |b.calls| + 1 && c.calls[..|b.calls|] == b.calls
      && c.calls[|b.calls|].fn == b.consumer.snapshot[b.consumer.next].fn
      && c.calls[|b.calls|].event == b.consumer.event
  {
  }

  lemma FinishEffect(b: B.Bus)
    requires B.Enabled(b, B.FinishDelivery)
    ensures B.Next(b, B.FinishDelivery) == b.(consumer := B.Waiting)
  {
  }

  lemma SpawnEffect(d: D.Desk, event: SessionEvent)
    ensures var e := D.Next(d, D.Spawn(event));
      && e.regs == d.regs && e.sent == d.sent && D.Events(e.tasks) == D.Events(d.tasks) + [event]
      && D.Exec(d, [D.Spawn(event)]) == e
  {
    D.NextEvents(d, D.Spawn(event));
    assert [D.Spawn(event)][1..] == [];
  }

  /** The order in which `Disconnect` drops the handlers. */
  const CLEARS: seq<D.Action> := [D.ClearTools, D.ClearPermission, D.ClearCommands, D.ClearElicitation]

  lemma ClearEffect(d: D.Desk)
    ensures D.Exec(d, CLEARS) == d.(regs := D.Registrations({}, false, {}, false), cleared := true)
  {
    assert CLEARS[1..][1..][1..][1..] == [];
  }

  method IndexOf(a: array<B.Entry>, n: nat, id: nat) returns (i: nat)
    requires n <= a.Length
    ensures i <= n
    ensures forall j :: 0 <= j < i ==> a[j].id != id
    ensures i < n ==> a[i].id == id
  {
    i := 0;
    while i < n && a[i].id != id
      invariant i <= n
      invariant forall j :: 0 <= j < i ==> a[j].id != id
    {
      i := i + 1;
    }
  }

  /** Deletes the first entry with the given id from the first `n` cells, and returns how many are left. */
  method DeleteId(a: array<B.Entry>, n: nat, id: nat) returns (left: nat)
    requires n <= a.Length
    modifies a
    ensures left <= n && a[..left] == B.RemoveId(old(a[..n]), id)
  {
    hide B.RemoveId;
    var i := IndexOf(a, n, id);
    RemoveIdSplit(a[..n], id, i);
    left := n;
    if i < n {
      assert a[..n][..i] == a[..i] && a[..n][i + 1..] == a[i + 1..n];
      DeleteAt(a, i, n);
      left := n - 1;
    }
  }

  /** A larger array that starts with the same cells. */
  method Grown(a: array<B.Entry>) returns (grown: array<B.Entry>)
    ensures fresh(grown) && grown.Length > a.Length && grown[..a.Length] == a[..]
  {
    grown := new B.Entry[2 * a.Length + 1];
    forall i | 0 <= i < a.Length {
      grown[i] := a[i];
    }
  }

  class Session {
    // the handler slice: the first `count` cells of `backing`
    var backing: array<B.Entry>
    var count: nat
    var nextHandlerID: nat
    // the event channel, and an event the read loop is blocked on
    var eventCh: seq<SessionEvent>
    var closed: bool
    var blocked: Option<SessionEvent>
    // handler tables
    var toolHandlers: map<string, B.Callback>
    var permissionHandler: Option<B.Callback>
    var commandHandlers: map<string, B.Callback>
    var elicitationHandler: Option<B.Callback>
    // what callers can observe: callbacks invoked and reply RPCs issued
    var invoked: seq<Invocation>
    var replies: seq<D.Sent>

    // the steps performed so far, and the states of the two step systems after them
    ghost var history: seq<B.Action>
    ghost const config: D.Registrations
    ghost var deskHistory: seq<D.Action>
    ghost var bus: B.Bus
    ghost var desk: D.Desk

    ghost predicate Valid()
      reads this, backing
    {
      && count <= backing.Length
      && bus.handlers == backing[..count]
      && bus.nextId == nextHandlerID
      && bus.queue == eventCh
      && bus.closed == closed
      && bus.sending == blocked
      && bus == B.Exec(B.Init(), history)
      && invoked == CallLog(bus.calls)
      && DeskValid()
      && D.Events(desk.tasks) == bus.dispatched
    }

    ghost predicate DeskValid()
      reads this
    {
      && desk.regs == Registered()
      && desk.sent == replies
      && desk == D.Exec(D.Init(config), deskHistory)
    }

    constructor (tools: seq<Definition>, permission: Option<B.Callback>,
                 commands: seq<Definition>, elicitation: Option<B.Callback>)
      ensures Valid() && fresh(backing)
      ensures history == [] && deskHistory == [] && config == desk.regs
      ensures permissionHandler == permission && elicitationHandler == elicitation
      ensures forall name :: name in toolHandlers <==>
        name != "" && exists i :: 0 <= i < |tools| && tools[i].handler.Some? && tools[i].name == name
      ensures forall name :: name in commandHandlers <==>
        name != "" && exists i :: 0 <= i < |commands| && commands[i].handler.Some? && commands[i].name == name
      ensures forall name :: name in toolHandlers ==>
        exists i :: LastUsable(tools, name, i) && toolHandlers[name] == tools[i].handler.value
      ensures forall name :: name in commandHandlers ==>
        exists i :: LastUsable(commands, name, i) && commandHandlers[name] == commands[i].handler.value
    {
      backing := new B.Entry[0];
      count, nextHandlerID, eventCh, closed, blocked := 0, 0, [], false, None;
      invoked, replies := [], [];
      history, bus := [], B.Init();
      permissionHandler, elicitationHandler := permission, elicitation;
      var t := BuildTable(tools);
      var c := BuildTable(commands);
      toolHandlers, commandHandlers := t, c;
      config := D.Registrations(t.Keys, permission.Some?, c.Keys, elicitation.Some?);
      desk := D.Init(D.Registrations(t.Keys, permission.Some?, c.Keys, elicitation.Some?));
      deskHistory := [];
    }

    /** Performs one step on the ghost state. */
    ghost method Record(a: B.Action)
      requires bus == B.Exec(B.Init(), history)
      modifies this`history, this`bus
      ensures history == old(history) + [a] && bus == B.Next(old(bus), a)
      ensures bus == B.Exec(B.Init(), history)
    {
      hide B.Next;
      B.ExecConcat(B.Init(), history, [a]);
      assert [a][1..] == [];
      history := history + [a];
      bus := B.Next(bus, a);
    }

    /** Performs steps of broadcast goroutines, or of the clearing of handlers, on the ghost state. */
    ghost method RecordDesk(actions: seq<D.Action>)
      requires desk == D.Exec(D.Init(config), deskHistory)
      modifies this`deskHistory, this`desk
      ensures deskHistory == old(deskHistory) + actions && desk == D.Exec(old(desk), actions)
      ensures desk == D.Exec(D.Init(config), deskHistory)
    {
      D.ExecConcat(D.Init(config), deskHistory, actions);
      deskHistory := deskHistory + actions;
      desk := D.Exec(desk, actions);
    }

    /** Appends to the handler slice, in place while there is room. */
    method On(handler: B.Callback) returns (id: nat)
      requires Valid()
      modifies this, backing
      ensures Valid() && (backing == old(backing) || fresh(backing))
      ensures history == old(history) + [B.On(handler)] && id == old(nextHandlerID)
      ensures bus == B.Next(old(bus), B.On(handler))
      ensures desk == old(desk) && invoked == old(invoked)
    {
      hide B.Next, B.Exec, CallLog, D.Exec, D.Events, D.Next;
      OnEffect(bus, handler);
      id := nextHandlerID;
      if count == backing.Length {
        backing := Grown(backing);
      }
      backing[count] := B.Entry(id, handler);
      count := count + 1;
      nextHandlerID := nextHandlerID + 1;
      assert backing[..count] == old(backing[..count]) + [B.Entry(id, handler)];
      Record(B.On(handler));
    }

    /** Deletes the entry in place: the cells after it move down one, the last cell keeps stale data. */
    method Unsubscribe(id: nat)
      requires Valid()
      modifies this, backing
      ensures Valid() && backing == old(backing)
      ensures history == old(history) + [B.Unsubscribe(id)]
      ensures desk == old(desk) && invoked == old(invoked)
      ensures bus == B.Next(old(bus), B.Unsubscribe(id))
    {
      hide B.Next, B.Exec, B.RemoveId, CallLog, D.Exec, D.Events, D.Next;
      UnsubscribeEffect(bus, id);
      count := DeleteId(backing, count, id);
      Record(B.Unsubscribe(id));
    }

    /** The consumer's copy of the handler functions, taken before any of them runs. */
    method Snapshot() returns (handlers: array<B.Callback>)
      requires Valid()
      ensures fresh(handlers) && handlers[..] == Functions(bus.handlers)
    {
      handlers := new B.Callback[count];
      for i := 0 to count
        invariant forall j :: 0 <= j < i ==> handlers[j] == backing[j].fn
      {
        handlers[i] := backing[i].fn;
      }
    }

    /** The read loop's part of an event: spawn the goroutine, then send on the channel. A full channel
        blocks the send, a closed one swallows it. */
    method Dispatch(event: SessionEvent)
      requires Valid() && blocked.None?
      modifies this
      ensures Valid() && backing == old(backing)
      ensures history == old(history) + [B.Arrive(event)] + [if closed then B.Drop else B.Enqueue]
      ensures desk == D.Next(old(desk), D.Spawn(event)) && invoked == old(invoked)
      ensures blocked.Some? <==> !closed && |old(eventCh)| >= 128
      ensures eventCh == if closed || blocked.Some? then old(eventCh) else old(eventCh) + [event]
    {
      hide B.Next, B.Exec, CallLog, D.Exec, D.Events, D.Next;
      SpawnEffect(desk, event);
      ArriveEffect(bus, event);
      RecordDesk([D.Spawn(event)]);
      Record(B.Arrive(event));
      if closed {
        Record(B.Drop);
      } else {
        if |eventCh| < B.CAPACITY {
          eventCh := eventCh + [event];
        } else {
          blocked := Some(event);
        }
        Record(B.Enqueue);
      }
    }

    /** A blocked send goes through once there is room. A close makes it fail, and its event is lost. */
    method ResumeSend()
      requires Valid() && blocked.Some? && (closed || |eventCh| < B.CAPACITY)
      modifies this
      ensures Valid() && backing == old(backing) && blocked.None?
      ensures history == old(history) + [if closed then B.Drop else B.Enqueue]
      ensures eventCh == if closed then old(eventCh) else old(eventCh) + [old(blocked).value]
      ensures closed == old(closed) && desk == old(desk) && invoked == old(invoked)
    {
      hide B.Next, B.Exec, CallLog, D.Exec, D.Events, D.Next;
      ResumeEffect(bus);
      if !closed {
        eventCh := eventCh + [blocked.value];
      }
      blocked := None;
      Record(if closed then B.Drop else B.Enqueue);
    }

    method Apply(change: Change)
      requires Valid()
      modifies this, backing
      ensures Valid() && (backing == old(backing) || fresh(backing))
      ensures history == old(history) + [ChangeAction(change)]
      ensures bus == B.Next(old(bus), ChangeAction(change))
      ensures desk == old(desk) && invoked == old(invoked)
    {
      match change
      case Subscribe(fn) => var _ := On(fn);
      case Cancel(id) => Unsubscribe(id);
    }

    /** One turn of the consumer loop. While a callback runs, the handler list may change in any way:
        `during[i]` is what happens while callback `i` runs. The callbacks invoked are those of the
        list as it was when the event was taken, each once and in registration order. */
    method ProcessEvent(during: seq<seq<Change>>)
      requires Valid() && eventCh != [] && bus.consumer.Waiting?
      modifies this, backing
      ensures Valid() && (backing == old(backing) || fresh(backing))
      ensures eventCh == old(eventCh)[1..] && bus.consumer.Waiting?
      ensures invoked == old(invoked) + Invocations(old(backing[..count]), old(eventCh)[0])
      ensures history == old(history) + Turn(old(count), during) && desk == old(desk)
    {
      hide B.Exec, B.Next, CallLog, D.Exec, D.Events, D.Next;
      var event, handlers := Take();
      DeliverAll(handlers, event, during);
      FinishEffect(bus);
      Record(B.FinishDelivery);
    }

    /** Receives the head of the channel and copies the handler functions. */
    method Take() returns (event: SessionEvent, handlers: array<B.Callback>)
      requires Valid() && eventCh != [] && bus.consumer.Waiting?
      modifies this
      ensures Valid() && backing == old(backing) && fresh(handlers)
      ensures event == old(eventCh)[0] && eventCh == old(eventCh)[1..]
      ensures bus.handlers == old(bus.handlers) && handlers[..] == Functions(bus.handlers)
      ensures bus.consumer == B.Delivering(event, bus.handlers, 0)
      ensures history == old(history) + [B.Receive, B.TakeSnapshot]
      ensures desk == old(desk) && invoked == old(invoked)
    {
      hide B.Exec, CallLog, D.Exec, D.Events, D.Next;
      event := eventCh[0];
      eventCh := eventCh[1..];
      Record(B.Receive);
      Record(B.TakeSnapshot);
      handlers := Snapshot();
    }

    method DeliverOne(fn: B.Callback, event: SessionEvent, changes: seq<Change>)
      requires Valid() && B.Enabled(bus, B.CallNext)
      requires bus.consumer.event == event && bus.consumer.snapshot[bus.consumer.next].fn == fn
      modifies this, backing
      ensures Valid() && (backing == old(backing) || fresh(backing))
      ensures bus.consumer == old(bus.consumer).(next := old(bus.consumer.next) + 1) && bus.queue == old(bus.queue)
      ensures invoked == old(invoked) + [Invocation(fn, event)]
      ensures history == old(history) + ([B.CallNext] + ChangeActions(changes)) && desk == old(desk)
    {
      Invoke(fn, event);
      ApplyAll(changes);
    }

    /** The loop over the copied handlers. */
    method DeliverAll(handlers: array<B.Callback>, event: SessionEvent, during: seq<seq<Change>>)
      requires Valid() && bus.consumer == B.Delivering(event, bus.handlers, 0)
      requires handlers[..] == Functions(bus.handlers)
      modifies this, backing
      ensures Valid() && (backing == old(backing) || fresh(backing))
      ensures bus.consumer == B.Delivering(event, old(bus.handlers), handlers.Length) && bus.queue == old(bus.queue)
      ensures invoked == old(invoked) + Invocations(old(bus.handlers), event)
      ensures history == old(history) + CallSteps(during, handlers.Length) && desk == old(desk)
    {
      hide B.Next, B.Exec, CallLog, D.Exec, D.Events, D.Next;
      ghost var entries := bus.handlers;
      var i := 0;
      while i < handlers.Length
        invariant 0 <= i <= handlers.Length == |entries|
        invariant handlers[..] == Functions(entries)
        invariant Valid() && (backing == old(backing) || fresh(backing))
        invariant history == old(history) + CallSteps(during, i) && desk == old(desk)
        invariant bus.consumer == B.Delivering(event, entries, i) && bus.queue == old(bus.queue)
        invariant invoked == old(invoked) + Invocations(entries, event)[..i]
      {
        assert handlers[i] == handlers[..][i] == entries[i].fn;
        assert Invocations(entries, event)[..i + 1]
            == Invocations(entries, event)[..i] + [Invocation(handlers[i], event)];
        StepsAppend(old(history), during, i);
        hide CallSteps, ChangeActions;
        DeliverOne(handlers[i], event, if i < |during| then during[i] else []);
        i := i + 1;
      }
    }

    /** Runs one callback; a panic in it is recovered, so its outcome does not matter here. */
    method Invoke(fn: B.Callback, event: SessionEvent)
      requires Valid() && B.Enabled(bus, B.CallNext)
      requires bus.consumer.event == event && bus.consumer.snapshot[bus.consumer.next].fn == fn
      modifies this`invoked, this`history, this`bus
      ensures Valid() && invoked == old(invoked) + [Invocation(fn, event)]
      ensures history == old(history) + [B.CallNext] && bus == B.Next(old(bus), B.CallNext)
    {
      hide B.Next, B.Exec;
      CallEffect(bus);
      invoked := invoked + [Invocation(fn, event)];
      Record(B.CallNext);
      assert bus.calls[..|bus.calls| - 1] == old(bus.calls);
    }

    method ApplyAll(changes: seq<Change>)
      requires Valid()
      modifies this, backing
      ensures Valid() && (backing == old(backing) || fresh(backing))
      ensures history == old(history) + ChangeActions(changes)
      ensures desk == old(desk) && invoked == old(invoked)
      ensures bus.consumer == old(bus.consumer) && bus.queue == old(bus.queue)
    {
      for k := 0 to |changes|
        invariant Valid() && (backing == old(backing) || fresh(backing))
        invariant history == old(history) + ChangeActions(changes[..k])
        invariant desk == old(desk) && invoked == old(invoked)
        invariant bus.consumer == old(bus.consumer) && bus.queue == old(bus.queue)
      {
        Apply(changes[k]);
        assert changes[..k + 1] == changes[..k] + [changes[k]];
      }
      assert changes[..|changes|] == changes;
    }

    // ---------- what every session keeps ----------

    /** Whatever calls led here: accepted events are the consumed ones followed by the channel's, at most 128
        of them, and only what the read loop dispatched. */
    lemma EventsInOrder()
      requires Valid()
      ensures bus.accepted == bus.received + eventCh && |eventCh| <= 128 && bus.accepted <= bus.dispatched
      ensures !closed ==> bus.dispatched == bus.accepted + ToSeq(blocked)
    {
      B.EventsFlowInOrder(history);
    }

    /** Every registration has been called with one contiguous block of the received events, in order. */
    lemma HandlerSawOneBlock(id: nat)
      requires Valid() && id < |bus.spans|
      ensures B.SeenAt(bus, id)
    {
      B.HandlerSeesOneBlock(history, id);
    }

    /** Every dispatched event has one goroutine, which has sent at most one reply, the one its handler's
        outcome calls for; and if no handlers were dropped, a finished one has sent exactly the answer of the
        handlers the session was made with. */
    lemma RepliesOnce(i: nat)
      requires Valid() && i < |bus.dispatched|
      ensures i < |desk.tasks| && desk.tasks[i].event == bus.dispatched[i]
      ensures |D.RepliesOf(replies, i)| <= 1
      ensures desk.tasks[i].stage.Finished? ==> D.Justified(desk.tasks[i], D.RepliesOf(replies, i))
      ensures desk.tasks[i].stage.Finished? && !desk.cleared ==>
        D.AnsweredAs(config, desk.tasks[i], D.RepliesOf(replies, i))
    {
      assert D.Events(desk.tasks)[i] == desk.tasks[i].event;
      D.AtMostOneReply(config, deskHistory, i);
      if desk.tasks[i].stage.Finished? && !desk.cleared {
        D.ExactlyOneReply(config, deskHistory, i);
      }
    }

    /** The body of the goroutine of one broadcast event, run without interruption: `outcome` is what the
        user handler did, if one is called. */
    method HandleBroadcastEvent(task: nat, event: SessionEvent, outcome: D.Outcome)
      requires Valid() && task < |desk.tasks| && desk.tasks[task] == D.Task(event, D.Spawned, None)
      requires D.Handles(desk.regs, event) ==> D.Fits(event, outcome)
      modifies this`replies, this`desk, this`deskHistory
      ensures Valid()
      ensures desk == D.Exec(old(desk), D.WholeTask(task, outcome))
      ensures replies == old(replies) + D.Numbered(task, D.Answer(old(desk.regs), event, outcome))
      ensures exists answers ::
        && replies == old(replies) + Tagged(task, answers)
        && D.SpelledOut(event, if D.CalledFor(Registered(), event) then Some(outcome) else None, answers)
      ensures event.PermissionRequested? && event.resolvedByHook == Some(true) ==> replies == old(replies)
    {
      Spell(task, desk.regs, event, outcome);
      D.WholeTaskAnswers(desk, task, outcome);
      D.ExecEvents(desk, D.WholeTask(task, outcome));
      hide D.Exec, D.Next, D.WholeTask, D.Events, D.Answer, D.Handles, D.Fits, B.Exec, CallLog;
      RecordDesk(D.WholeTask(task, outcome));
      RunHandler(task, event, outcome);
    }

    /** The handlers a session answers with. */
    function Registered(): D.Registrations
      reads this
    {
      D.Registrations(toolHandlers.Keys, permissionHandler.Some?, commandHandlers.Keys, elicitationHandler.Some?)
    }

    /** The code of the goroutine. */
    method RunHandler(task: nat, event: SessionEvent, outcome: D.Outcome)
      requires D.Handles(Registered(), event) ==> D.Fits(event, outcome)
      modifies this`replies
      ensures replies == old(replies) + D.Numbered(task, D.Answer(Registered(), event, outcome))
    {
      match event
      case ToolRequested(_, toolName) =>
        if toolName !in toolHandlers {
          return;
        }
        ExecuteToolAndRespond(task, event, outcome);
      case PermissionRequested(_, resolvedByHook) =>
        if resolvedByHook.Some? && resolvedByHook.value {
          return;
        }
        if permissionHandler.None? {
          return;
        }
        ExecutePermissionAndRespond(task, event, outcome);
      case CommandExecute(_, commandName) =>
        if commandName !in commandHandlers {
          Respond(task, D.CommandDone(Some("Unknown command: " + commandName)));
          return;
        }
        if outcome.Failed? {
          Respond(task, D.CommandDone(Some(outcome.message)));
          return;
        }
        Respond(task, D.CommandDone(None));
      case ElicitationRequested(_) =>
        if elicitationHandler.None? {
          return;
        }
        if outcome.Failed? {
          Respond(task, D.ElicitationAnswer("cancel", map[]));
          return;
        }
        Respond(task, D.ElicitationAnswer(outcome.action, outcome.content));
      case _ =>
    }

    method Respond(task: nat, reply: D.Reply)
      modifies this`replies
      ensures replies == old(replies) + [D.Sent(task, reply)]
    {
      replies := replies + [D.Sent(task, reply)];
    }

    method ExecuteToolAndRespond(task: nat, event: SessionEvent, outcome: D.Outcome)
      requires event.ToolRequested? && D.Fits(event, outcome)
      modifies this`replies
      ensures replies == old(replies) + D.Numbered(task, D.ReplyTo(event, outcome))
    {
      if outcome.Panicked? {
        Respond(task, D.ToolFailure("tool panic: " + outcome.text));
        return;
      }
      if outcome.Failed? {
        Respond(task, D.ToolFailure(outcome.message));
        return;
      }
      var result := outcome.result;
      var textResultForLLM := result.text;
      if textResultForLLM == "" {
        textResultForLLM := result.printed;
      }
      var effectiveResultType := result.resultType;
      if effectiveResultType == "" {
        if result.error != "" {
          effectiveResultType := "failure";
        } else {
          effectiveResultType := "success";
        }
      }
      var error := None;
      if result.error != "" {
        error := Some(result.error);
      }
      Respond(task, D.ToolAnswer(textResultForLLM, effectiveResultType, error));
    }

    method ExecutePermissionAndRespond(task: nat, event: SessionEvent, outcome: D.Outcome)
      requires event.PermissionRequested? && D.Fits(event, outcome)
      modifies this`replies
      ensures replies == old(replies) + D.Numbered(task, D.ReplyTo(event, outcome))
    {
      if outcome.Panicked? || outcome.Failed? {
        Respond(task, D.Decision(D.DENIED));
        return;
      }
      if outcome.kind == D.NO_RESULT {
        return;
      }
      Respond(task, D.Decision(outcome.kind));
    }

    /** Ends the session on the server and, only if that worked, closes the channel once and drops every
        handler. A second call changes nothing more. */
    method Disconnect(rpcFailure: Option<string>) returns (error: Option<string>)
      requires Valid()
      modifies this
      ensures Valid() && invoked == old(invoked) && replies == old(replies) && eventCh == old(eventCh)
      ensures rpcFailure.Some? ==>
        && error == Some("failed to disconnect session: " + rpcFailure.value)
        && history == old(history) && desk == old(desk)
      ensures rpcFailure.None? ==>
        && error == None && closed && count == 0
        && history == old(history) + [B.Close] + [B.ClearHandlers]
        && desk == old(desk).(regs := D.Registrations({}, false, {}, false), cleared := true)
    {
      if rpcFailure.Some? {
        return Some("failed to disconnect session: " + rpcFailure.value);
      }
      CloseChannel();
      ClearTables();
      error := None;
    }

    method CloseChannel()
      requires Valid()
      modifies this
      ensures Valid() && closed && count == 0 && invoked == old(invoked) && replies == old(replies)
      ensures eventCh == old(eventCh) && desk == old(desk)
      ensures history == old(history) + [B.Close] + [B.ClearHandlers]
    {
      hide B.Next, B.Exec, CallLog, D.Exec, D.Events, D.Next;
      CloseEffect(bus);
      if !closed {
        closed := true;
      }
      Record(B.Close);
      backing, count := new B.Entry[0], 0;
      Record(B.ClearHandlers);
    }

    method ClearTables()
      requires DeskValid()
      modifies this`toolHandlers, this`permissionHandler, this`commandHandlers, this`elicitationHandler,
               this`desk, this`deskHistory
      ensures DeskValid() && deskHistory == old(deskHistory) + CLEARS
      ensures desk == old(desk).(regs := D.Registrations({}, false, {}, false), cleared := true)
    {
      toolHandlers, permissionHandler := map[], None;
      commandHandlers, elicitationHandler := map[], None;
      ClearEffect(desk);
      RecordDesk(CLEARS);
      hide D.Exec;
    }
  }

  /** Replies sent by goroutine `task`. */
  function Tagged(task: nat, answers: seq<D.Reply>): seq<D.Sent> {
    seq(|answers|, k requires 0 <= k < |answers| => D.Sent(task, answers[k]))
  }

  lemma Spell(task: nat, regs: D.Registrations, event: SessionEvent, outcome: D.Outcome)
    requires D.Handles(regs, event) ==> D.Fits(event, outcome)
    ensures var answers := ToSeq(D.Answer(regs, event, outcome));
      && D.Numbered(task, D.Answer(regs, event, outcome)) == Tagged(task, answers)
      && D.SpelledOut(event, if D.CalledFor(regs, event) then Some(outcome) else None, answers)
    ensures event.PermissionRequested? && event.resolvedByHook == Some(true) ==>
      D.Numbered(task, D.Answer(regs, event, outcome)) == []
  {
    D.AnswerIsSpelledOut(regs, event, outcome);
    hide D.SpelledOut;
  }

  function ChangeActions(changes: seq<Change>): seq<B.Action> {
    seq(|changes|, i requires 0 <= i < |changes| => ChangeAction(changes[i]))
  }

  /** The steps of the first `n` callbacks of a delivery and of the list changes made during them. */
  function CallSteps(during: seq<seq<Change>>, n: nat): seq<B.Action> {
    if n == 0 then []
    else CallSteps(during, n - 1) + ([B.CallNext] + ChangeActions(if n - 1 < |during| then during[n - 1] else []))
  }

  lemma StepsAppend(history: seq<B.Action>, during: seq<seq<Change>>, i: nat)
    ensures history + CallSteps(during, i + 1) ==
      history + CallSteps(during, i) + ([B.CallNext] + ChangeActions(if i < |during| then during[i] else []))
  {
  }

  /** The steps of one turn of the consumer loop that serves `n` handlers. */
  function Turn(n: nat, during: seq<seq<Change>>): seq<B.Action> {
    [B.Receive, B.TakeSnapshot] + CallSteps(during, n) + [B.FinishDelivery]
  }

  function ChangeAction(c: Change): B.Action {
    match c
    case Subscribe(fn) => B.On(fn)
    case Cancel(id) => B.Unsubscribe(id)
  }

  lemma {:induction false} RemoveIdSplit(s: seq<B.Entry>, id: nat, i: nat)
    requires i <= |s| && (forall j :: 0 <= j < i ==> s[j].id != id)
    requires i < |s| ==> s[i].id == id
    ensures B.RemoveId(s, id) == if i < |s| then s[..i] + s[i + 1..] else s
  {
    if i > 0 {
      RemoveIdSplit(s[1..], id, i - 1);
    }
  }
}
