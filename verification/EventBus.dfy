/** The event side of a Go session as a step system: the ordered handler list, the bounded channel,
    the read loop that fills it and the one consumer that drains it.

    A run is any sequence of actions, so every interleaving of the goroutines is one; an action that
    is blocked in the current state leaves the state alone. */
module EventBus {
  import opened Wrappers
  import opened SessionEvents

  /** Capacity of the event channel. */
  const CAPACITY: nat := 128

  /** Identity of a user function; several registrations may share one. */
  type Callback = nat

  datatype Entry = Entry(id: nat, fn: Callback)

  datatype Consumer =
    | Waiting
    | Received(event: SessionEvent)
    | Delivering(event: SessionEvent, snapshot: seq<Entry>, next: nat)

  /** When a registration began and ended, counted in handler snapshots taken. */
  datatype Span = Span(fn: Callback, from: nat, until: Option<nat>)

  /** One invocation of a handler, for the event at position `index` of the received events. */
  datatype Call = Call(id: nat, fn: Callback, index: nat, event: SessionEvent)

  /** The fields of the session, then the trace: everything dispatched, accepted by the channel and
      received from it, every handler call, and the span of every registration. */
  datatype Bus = Bus(
    handlers: seq<Entry>,
    nextId: nat,
    queue: seq<SessionEvent>,
    closed: bool,
    sending: Option<SessionEvent>,
    consumer: Consumer,
    dispatched: seq<SessionEvent>,
    accepted: seq<SessionEvent>,
    received: seq<SessionEvent>,
    calls: seq<Call>,
    spans: seq<Span>)

  datatype Action =
    | On(fn: Callback)
    | Unsubscribe(id: nat)
    | Arrive(event: SessionEvent)
    | Enqueue
    | Drop
    | Receive
    | TakeSnapshot
    | CallNext
    | FinishDelivery
    | Close
    | ClearHandlers

  function Init(): Bus {
    Bus([], 0, [], false, None, Waiting, [], [], [], [], [])
  }

  /** The handler list without the first entry that has the given id. */
  function RemoveId(s: seq<Entry>, id: nat): seq<Entry> {
    if s == [] then []
    else if s[0].id == id then s[1..]
    else [s[0]] + RemoveId(s[1..], id)
  }

  predicate HasId(s: seq<Entry>, id: nat) {
    s != [] && (s[0].id == id || HasId(s[1..], id))
  }

  /** The received events whose handler snapshot has been taken. */
  function Offered(b: Bus): seq<SessionEvent> {
    if b.consumer.Received? && b.received != [] then b.received[..|b.received| - 1] else b.received
  }

  function EndSpan(s: Span, at: nat): Span {
    if s.until.None? then s.(until := Some(at)) else s
  }

  predicate Enabled(b: Bus, a: Action) {
    match a
    case On(_) => true
    case Unsubscribe(_) => true
    case Arrive(_) => b.sending.None?
    case Enqueue => b.sending.Some? && !b.closed && |b.queue| < CAPACITY
    case Drop => b.sending.Some? && b.closed
    case Receive => b.consumer.Waiting? && b.queue != []
    case TakeSnapshot => b.consumer.Received?
    case CallNext => b.consumer.Delivering? && b.consumer.next < |b.consumer.snapshot|
    case FinishDelivery => b.consumer.Delivering? && b.consumer.next == |b.consumer.snapshot|
    case Close => true
    case ClearHandlers => b.closed
  }

  function Next(b: Bus, a: Action): Bus {
    if !Enabled(b, a) then b else
    match a
    case On(fn) =>
      b.(handlers := b.handlers + [Entry(b.nextId, fn)],
         nextId := b.nextId + 1,
         spans := b.spans + [Span(fn, |Offered(b)|, None)])
    case Unsubscribe(id) =>
      b.(handlers := RemoveId(b.handlers, id),
         spans := if HasId(b.handlers, id) && id < |b.spans|
                  then b.spans[id := EndSpan(b.spans[id], |Offered(b)|)] else b.spans)
    case Arrive(e) =>
      b.(sending := Some(e), dispatched := b.dispatched + [e])
    case Enqueue =>
      b.(queue := b.queue + [b.sending.value],
         accepted := b.accepted + [b.sending.value],
         sending := None)
    case Drop =>
      b.(sending := None)
    case Receive =>
      b.(consumer := Received(b.queue[0]),
         queue := b.queue[1..],
         received := b.received + [b.queue[0]])
    case TakeSnapshot =>
      b.(consumer := Delivering(b.consumer.event, b.handlers, 0))
    case CallNext =>
      var h := b.consumer.snapshot[b.consumer.next];
      b.(consumer := b.consumer.(next := b.consumer.next + 1),
         calls := b.calls + [Call(h.id, h.fn, if b.received == [] then 0 else |b.received| - 1, b.consumer.event)])
    case FinishDelivery =>
      b.(consumer := Waiting)
    case Close =>
      b.(closed := true)
    case ClearHandlers =>
      b.(handlers := [],
         spans := seq(|b.spans|, i requires 0 <= i < |b.spans| => EndSpan(b.spans[i], |Offered(b)|)))
  }

  function Exec(b: Bus, actions: seq<Action>): Bus
    decreases |actions|
  {
    if actions == [] then b else Exec(Next(b, actions[0]), actions[1..])
  }

  lemma ExecConcat(b: Bus, s: seq<Action>, t: seq<Action>)
    ensures Exec(b, s + t) == Exec(Exec(b, s), t)
    decreases |s|
  {
    if s == [] {
      assert s + t == t;
    } else {
      assert (s + t)[0] == s[0] && (s + t)[1..] == s[1..] + t;
      ExecConcat(Next(b, s[0]), s[1..], t);
    }
  }

  /** The events handler `id` has been called with, in call order. */
  function Seen(calls: seq<Call>, id: nat): seq<SessionEvent> {
    if calls == [] then []
    else
      var last := calls[|calls| - 1];
      Seen(calls[..|calls| - 1], id) + (if last.id == id then [last.event] else [])
  }

  lemma SeenAppend(calls: seq<Call>, c: Call, id: nat)
    ensures Seen(calls + [c], id) == Seen(calls, id) + (if c.id == id then [c.event] else [])
  {
    assert (calls + [c])[..|calls|] == calls;
  }

  lemma SeenNothing(calls: seq<Call>, id: nat)
    requires forall i :: 0 <= i < |calls| ==> calls[i].id != id
    ensures Seen(calls, id) == []
  {
  }

  /** The event a delivery in progress still owes to handler `id`. */
  function Pending(b: Bus, id: nat): seq<SessionEvent> {
    if b.consumer.Delivering? && b.consumer.next <= |b.consumer.snapshot|
       && HasId(b.consumer.snapshot[b.consumer.next..], id)
    then [b.consumer.event] else []
  }

  function End(b: Bus, s: Span): nat {
    if s.until.Some? then s.until.value else |Offered(b)|
  }

  // ---------- the invariant, in four parts ----------

  ghost predicate ChannelInv(b: Bus) {
    && b.accepted == b.received + b.queue
    && |b.queue| <= CAPACITY
    && b.accepted <= b.dispatched
    && (!b.closed ==> b.dispatched == b.accepted + ToSeq(b.sending))
    && (b.consumer.Received? ==> b.received != [] && b.received[|b.received| - 1] == b.consumer.event)
    && (b.consumer.Delivering? ==>
          && b.received != [] && b.received[|b.received| - 1] == b.consumer.event
          && b.consumer.next <= |b.consumer.snapshot|)
  }

  ghost predicate Ascending(s: seq<Entry>, bound: nat) {
    && (forall i :: 0 <= i < |s| ==> s[i].id < bound)
    && (forall i, j :: 0 <= i < j < |s| ==> s[i].id < s[j].id)
  }

  ghost predicate NamesAgree(s: seq<Entry>, spans: seq<Span>) {
    forall e :: e in s ==> e.id < |spans| && spans[e.id].fn == e.fn
  }

  ghost predicate ListInv(b: Bus) {
    && Ascending(b.handlers, b.nextId)
    && (b.consumer.Delivering? ==>
          && Ascending(b.consumer.snapshot, b.nextId)
          && NamesAgree(b.consumer.snapshot, b.spans))
    && NamesAgree(b.handlers, b.spans)
    && |b.spans| == b.nextId
    && (forall id: nat | id < |b.spans| ::
          && b.spans[id].from <= End(b, b.spans[id]) <= |Offered(b)|
          && (HasId(b.handlers, id) <==> b.spans[id].until.None?))
  }

  /** Handler `id` has seen, or is about to see, exactly the events offered during its span. */
  predicate SeenAt(b: Bus, id: nat)
    requires id < |b.spans|
  {
    && b.spans[id].from <= End(b, b.spans[id]) <= |Offered(b)|
    && Seen(b.calls, id) + Pending(b, id) == Offered(b)[b.spans[id].from..End(b, b.spans[id])]
  }

  ghost predicate SeenInv(b: Bus) {
    forall id: nat | id < |b.spans| :: SeenAt(b, id)
  }

  predicate Before(c: Call, d: Call) {
    c.index < d.index || (c.index == d.index && c.id < d.id)
  }

  ghost predicate CallInv(b: Bus) {
    && (forall i :: 0 <= i < |b.calls| ==>
          && b.calls[i].id < |b.spans|
          && b.calls[i].fn == b.spans[b.calls[i].id].fn
          && b.calls[i].index < |Offered(b)|
          && b.calls[i].event == Offered(b)[b.calls[i].index])
    && (forall i, j :: 0 <= i < j < |b.calls| ==> Before(b.calls[i], b.calls[j]))
    && (b.consumer.Delivering? ==>
          forall i, k | 0 <= i < |b.calls| && b.consumer.next <= k < |b.consumer.snapshot| ::
            b.calls[i].index < |b.received| - 1 || b.calls[i].id < b.consumer.snapshot[k].id)
  }

  ghost predicate Inv(b: Bus) {
    ChannelInv(b) && ListInv(b) && SeenInv(b) && CallInv(b)
  }

  // ---------- facts about the handler list ----------

  lemma {:induction false} HasIdAt(s: seq<Entry>, i: nat)
    requires i < |s|
    ensures HasId(s, s[i].id)
  {
    if i > 0 {
      HasIdAt(s[1..], i - 1);
    }
  }

  lemma {:induction false} HasIdAppend(s: seq<Entry>, e: Entry, id: nat)
    ensures HasId(s + [e], id) <==> HasId(s, id) || e.id == id
  {
    if s != [] {
      assert (s + [e])[1..] == s[1..] + [e];
      HasIdAppend(s[1..], e, id);
    }
  }

  lemma {:induction false} HasIdBelow(s: seq<Entry>, id: nat, low: nat, bound: nat)
    requires forall i :: 0 <= i < |s| ==> low < s[i].id < bound
    ensures HasId(s, id) ==> low < id < bound
  {
    if s != [] {
      HasIdBelow(s[1..], id, low, bound);
    }
  }

  lemma {:induction false} AllBelow(s: seq<Entry>, id: nat)
    requires forall i :: 0 <= i < |s| ==> s[i].id < id
    ensures !HasId(s, id)
  {
    if s != [] {
      AllBelow(s[1..], id);
    }
  }

  lemma {:induction false} RemoveIdMembers(s: seq<Entry>, id: nat)
    ensures forall e :: e in RemoveId(s, id) ==> e in s
    ensures |RemoveId(s, id)| <= |s|
  {
    if s != [] && s[0].id != id {
      RemoveIdMembers(s[1..], id);
    }
  }

  lemma {:induction false} RemoveIdAscending(s: seq<Entry>, id: nat, bound: nat)
    requires Ascending(s, bound)
    ensures Ascending(RemoveId(s, id), bound)
  {
    if s != [] && s[0].id != id {
      RemoveIdAscending(s[1..], id, bound);
      RemoveIdMembers(s[1..], id);
      var r := RemoveId(s[1..], id);
      forall j | 0 <= j < |r| ensures s[0].id < r[j].id {
        assert r[j] in s[1..];
      }
    }
  }

  lemma {:induction false} RemoveIdHas(s: seq<Entry>, id: nat, x: nat, bound: nat)
    requires Ascending(s, bound)
    ensures HasId(RemoveId(s, id), x) <==> HasId(s, x) && x != id
  {
    if s == [] {
    } else if s[0].id == id {
      HasIdBelow(s[1..], x, id, bound);
    } else {
      RemoveIdHas(s[1..], id, x, bound);
      assert RemoveId(s, id)[1..] == RemoveId(s[1..], id);
    }
  }

  // ---------- preservation ----------

  lemma NextChannel(b: Bus, a: Action)
    requires ChannelInv(b)
    ensures ChannelInv(Next(b, a))
  {
  }

  lemma OfferedGrows(b: Bus, a: Action)
    requires ChannelInv(b)
    ensures Offered(b) <= Offered(Next(b, a))
    ensures !a.TakeSnapshot? ==> Offered(b) == Offered(Next(b, a))
  {
    if a.TakeSnapshot? && Enabled(b, a) {
      var n := |b.received| - 1;
      assert Offered(b) == b.received[..n] && Offered(Next(b, a)) == b.received;
    } else if a.Receive? && Enabled(b, a) {
      assert Offered(Next(b, a)) == b.received;
    }
  }

  lemma NextListOn(b: Bus, fn: Callback)
    requires ChannelInv(b) && ListInv(b)
    ensures ListInv(Next(b, On(fn)))
  {
    var c := Next(b, On(fn));
    OfferedGrows(b, On(fn));
    hide HasId, RemoveId, Seen, Pending, ChannelInv;
    forall id: nat | id < |c.spans|
      ensures HasId(c.handlers, id) <==> c.spans[id].until.None?
    {
      HasIdAppend(b.handlers, Entry(b.nextId, fn), id);
      if id == b.nextId {
        AllBelow(b.handlers, id);
      }
    }
  }

  lemma NextListUnsubscribe(b: Bus, x: nat)
    requires ChannelInv(b) && ListInv(b)
    ensures ListInv(Next(b, Unsubscribe(x)))
  {
    hide RemoveId, HasId;
    var c := Next(b, Unsubscribe(x));
    OfferedGrows(b, Unsubscribe(x));
    RemoveIdAscending(b.handlers, x, b.nextId);
    RemoveIdMembers(b.handlers, x);
    forall id: nat | id < |c.spans|
      ensures HasId(c.handlers, id) <==> c.spans[id].until.None?
    {
      RemoveIdHas(b.handlers, x, id, b.nextId);
    }
  }

  lemma NextList(b: Bus, a: Action)
    requires ChannelInv(b) && ListInv(b)
    ensures ListInv(Next(b, a))
  {
    OfferedGrows(b, a);
    match a {
      case On(fn) => NextListOn(b, fn);
      case Unsubscribe(x) => NextListUnsubscribe(b, x);
      case _ =>
    }
  }

  lemma NextSeenOn(b: Bus, fn: Callback, id: nat)
    requires ChannelInv(b) && ListInv(b) && SeenInv(b) && CallInv(b)
    requires id <= b.nextId
    ensures |Next(b, On(fn)).spans| == b.nextId + 1
    ensures SeenAt(Next(b, On(fn)), id)
  {
    var c := Next(b, On(fn));
    assert Offered(c) == Offered(b) && c.calls == b.calls && Pending(c, id) == Pending(b, id);
    if id == b.nextId {
      SeenNothing(b.calls, id);
      PendingNothing(b, id);
      hide Seen, Pending;
      assert Offered(c)[c.spans[id].from..End(c, c.spans[id])] == [];
    } else {
      hide Seen, Pending;
      assert SeenAt(b, id) && c.spans[id] == b.spans[id];
    }
  }

  /** A snapshot offers its event, and owes it to exactly the live registrations. */
  lemma SnapshotPending(b: Bus, id: nat)
    requires ChannelInv(b) && ListInv(b) && b.consumer.Received? && id < |b.spans|
    ensures Offered(Next(b, TakeSnapshot)) == Offered(b) + [b.consumer.event]
    ensures Next(b, TakeSnapshot).calls == b.calls && Next(b, TakeSnapshot).spans == b.spans
    ensures Pending(b, id) == []
    ensures Pending(Next(b, TakeSnapshot), id) == if b.spans[id].until.None? then [b.consumer.event] else []
  {
    var c := Next(b, TakeSnapshot);
    assert c.consumer.snapshot[0..] == b.handlers;
  }

  lemma SliceExtended(s: seq<SessionEvent>, e: SessionEvent, from: nat, until: nat)
    requires from <= until <= |s|
    ensures (s + [e])[from..until] == s[from..until]
    ensures (s + [e])[from..|s| + 1] == s[from..] + [e]
  {
  }

  lemma NextSeenSnapshot(b: Bus, id: nat)
    requires ChannelInv(b) && ListInv(b) && b.consumer.Received?
    requires id < |b.spans| && SeenAt(b, id)
    ensures id < |Next(b, TakeSnapshot).spans| && SeenAt(Next(b, TakeSnapshot), id)
  {
    hide Seen, Pending, ListInv, ChannelInv, Next, Offered;
    var c := Next(b, TakeSnapshot);
    SnapshotPending(b, id);
    var from, until := b.spans[id].from, End(b, b.spans[id]);
    SliceExtended(Offered(b), b.consumer.event, from, until);
    assert Seen(b.calls, id) + [] == Seen(b.calls, id);
    if b.spans[id].until.None? {
      assert Offered(b)[from..until] == Offered(b)[from..];
    } else {
      assert End(c, c.spans[id]) == until;
    }
  }

  /** A call pays what a delivery owes to the handler called, and owes the rest as before. */
  lemma CallPending(b: Bus, id: nat)
    requires ListInv(b) && Enabled(b, CallNext)
    ensures var paid := if b.consumer.snapshot[b.consumer.next].id == id then [b.consumer.event] else [];
      Pending(b, id) == paid + Pending(Next(b, CallNext), id)
  {
    var h := b.consumer.snapshot[b.consumer.next];
    var rest := b.consumer.snapshot[b.consumer.next + 1..];
    assert b.consumer.snapshot[b.consumer.next..][1..] == rest;
    if id == h.id && rest != [] {
      HasIdBelow(rest, id, h.id, b.nextId);
    }
  }

  lemma CallSeen(b: Bus, id: nat)
    requires Enabled(b, CallNext)
    ensures var paid := if b.consumer.snapshot[b.consumer.next].id == id then [b.consumer.event] else [];
      Seen(Next(b, CallNext).calls, id) == Seen(b.calls, id) + paid
    ensures Offered(Next(b, CallNext)) == Offered(b) && Next(b, CallNext).spans == b.spans
  {
    SeenAppend(b.calls, Next(b, CallNext).calls[|b.calls|], id);
  }

  lemma NextSeenCall(b: Bus, id: nat)
    requires ListInv(b) && Enabled(b, CallNext)
    requires id < |b.spans| && SeenAt(b, id)
    ensures id < |Next(b, CallNext).spans| && SeenAt(Next(b, CallNext), id)
  {
    hide Seen, Pending, ListInv, Next, Offered;
    CallSeen(b, id);
    CallPending(b, id);
    var paid := if b.consumer.snapshot[b.consumer.next].id == id then [b.consumer.event] else [];
    ConcatAssoc(Seen(b.calls, id), paid, Pending(Next(b, CallNext), id));
  }

  lemma NextSeenOther(b: Bus, a: Action, id: nat)
    requires ChannelInv(b) && ListInv(b) && Enabled(b, a)
    requires !a.On? && !a.TakeSnapshot? && !a.CallNext?
    requires id < |b.spans| && SeenAt(b, id)
    ensures |Next(b, a).spans| == |b.spans| && SeenAt(Next(b, a), id)
  {
    hide Seen, Pending, ListInv, ChannelInv, Next;
    OfferedGrows(b, a);
    SpanKept(b, a, id);
    PendingKept(b, a, id);
  }

  lemma SpanKept(b: Bus, a: Action, id: nat)
    requires ChannelInv(b) && Enabled(b, a) && !a.On? && !a.TakeSnapshot? && !a.CallNext? && id < |b.spans|
    ensures var c := Next(b, a);
      |c.spans| == |b.spans| && c.spans[id].from == b.spans[id].from && End(c, c.spans[id]) == End(b, b.spans[id])
  {
    OfferedGrows(b, a);
    hide Seen, Pending, HasId, RemoveId;
  }

  lemma PendingKept(b: Bus, a: Action, id: nat)
    requires Enabled(b, a) && !a.On? && !a.TakeSnapshot? && !a.CallNext?
    ensures Next(b, a).calls == b.calls && Pending(Next(b, a), id) == Pending(b, id)
  {
    hide Seen, RemoveId;
    if a.FinishDelivery? {
      assert b.consumer.snapshot[b.consumer.next..] == [];
    }
  }

  lemma NextSeen(b: Bus, a: Action)
    requires Inv(b)
    ensures SeenInv(Next(b, a))
  {
    if Enabled(b, a) {
      forall id: nat | id < |Next(b, a).spans|
        ensures SeenAt(Next(b, a), id)
      {
        match a {
          case On(fn) => NextSeenOn(b, fn, id);
          case TakeSnapshot => NextSeenSnapshot(b, id);
          case CallNext => NextSeenCall(b, id);
          case _ => NextSeenOther(b, a, id);
        }
      }
    }
  }

  lemma PendingNothing(b: Bus, id: nat)
    requires ListInv(b) && b.nextId <= id
    ensures Pending(b, id) == []
  {
    if b.consumer.Delivering? && b.consumer.next < |b.consumer.snapshot| {
      AllBelow(b.consumer.snapshot[b.consumer.next..], id);
    }
  }

  lemma NextCallsCall(b: Bus)
    requires ChannelInv(b) && ListInv(b) && CallInv(b) && Enabled(b, CallNext)
    ensures CallInv(Next(b, CallNext))
  {
    hide Seen, Pending, RemoveId, HasId;
    var c := Next(b, CallNext);
    var h := b.consumer.snapshot[b.consumer.next];
    assert Offered(c) == Offered(b) == b.received;
    assert c.calls == b.calls + [Call(h.id, h.fn, |b.received| - 1, b.consumer.event)];
    assert h in b.consumer.snapshot;
    forall i, j | 0 <= i < j < |c.calls|
      ensures Before(c.calls[i], c.calls[j])
    {
      if j == |b.calls| {
        assert b.calls[i].index < |b.received| - 1 || b.calls[i].id < h.id;
      }
    }
  }

  lemma NextCallsSpans(b: Bus, a: Action)
    requires ChannelInv(b) && ListInv(b) && CallInv(b)
    requires a.On? || a.Unsubscribe? || a.ClearHandlers?
    ensures CallInv(Next(b, a))
  {
    hide Seen, Pending, RemoveId, HasId;
    OfferedGrows(b, a);
  }

  lemma NextCallsOther(b: Bus, a: Action)
    requires ChannelInv(b) && ListInv(b) && CallInv(b)
    requires !a.On? && !a.Unsubscribe? && !a.ClearHandlers? && !a.CallNext?
    ensures CallInv(Next(b, a))
  {
    hide Seen, Pending, RemoveId, HasId;
    OfferedGrows(b, a);
  }

  lemma NextCalls(b: Bus, a: Action)
    requires Inv(b)
    ensures CallInv(Next(b, a))
  {
    hide ChannelInv, ListInv, CallInv, SeenInv;
    if a.CallNext? {
      if Enabled(b, a) {
        NextCallsCall(b);
      }
    } else if a.On? || a.Unsubscribe? || a.ClearHandlers? {
      NextCallsSpans(b, a);
    } else {
      NextCallsOther(b, a);
    }
  }

  lemma NextInv(b: Bus, a: Action)
    requires Inv(b)
    ensures Inv(Next(b, a))
  {
    NextChannel(b, a);
    NextList(b, a);
    NextSeen(b, a);
    NextCalls(b, a);
  }

  lemma {:induction false} ExecInv(b: Bus, actions: seq<Action>)
    requires Inv(b)
    ensures Inv(Exec(b, actions))
    decreases |actions|
  {
    if actions != [] {
      NextInv(b, actions[0]);
      ExecInv(Next(b, actions[0]), actions[1..]);
    }
  }

  // ---------- what every run keeps ----------

  /** From a fresh session, in every run: what the channel accepted is what was received followed by
      what is queued, never more than 128 queued, and it is a prefix of what the read loop dispatched;
      until the channel is closed it is all of it but the event still being sent. */
  lemma EventsFlowInOrder(actions: seq<Action>)
    ensures var b := Exec(Init(), actions);
      && b.accepted == b.received + b.queue
      && |b.queue| <= 128
      && b.accepted <= b.dispatched
      && (!b.closed ==> b.dispatched == b.accepted + ToSeq(b.sending))
  {
    ExecInv(Init(), actions);
  }

  /** Once the channel is closed no run adds to what it accepted. */
  lemma {:induction false} NothingAcceptedAfterClose(b: Bus, actions: seq<Action>)
    requires b.closed
    ensures Exec(b, actions).closed && Exec(b, actions).accepted == b.accepted
    decreases |actions|
  {
    if actions != [] {
      NothingAcceptedAfterClose(Next(b, actions[0]), actions[1..]);
    }
  }

  /** In every run, each registration has been called with one contiguous block of the received
      events, in order and each once: the block offered while it was registered, less the event whose
      delivery to it is still to come. Every such call invoked the function that was registered. */
  lemma HandlerSeesOneBlock(actions: seq<Action>, id: nat)
    requires id < |Exec(Init(), actions).spans|
    ensures var b := Exec(Init(), actions);
      && b.spans[id].from <= End(b, b.spans[id]) <= |Offered(b)|
      && Offered(b) <= b.received
      && |b.received| <= |Offered(b)| + 1
      && Seen(b.calls, id) + Pending(b, id) == Offered(b)[b.spans[id].from..End(b, b.spans[id])]
      && (HasId(b.handlers, id) <==> b.spans[id].until.None?)
      && (forall c :: c in b.calls && c.id == id ==> c.fn == b.spans[id].fn)
  {
    ExecInv(Init(), actions);
    assert SeenAt(Exec(Init(), actions), id);
  }

  /** In every run the calls come in the order of the events and, for one event, in the order of
      registration; no handler is called twice for one event. */
  lemma CallsFollowRegistrationOrder(actions: seq<Action>)
    ensures var calls := Exec(Init(), actions).calls;
      forall i, j :: 0 <= i < j < |calls| ==> Before(calls[i], calls[j])
  {
    ExecInv(Init(), actions);
  }

  lemma NextKeepsEndedSpan(b: Bus, a: Action, id: nat)
    requires Inv(b) && id < |b.spans| && b.spans[id].until.Some?
    ensures id < |Next(b, a).spans| && Next(b, a).spans[id] == b.spans[id]
    ensures Offered(b) <= Offered(Next(b, a))
    ensures Seen(b.calls, id) <= Seen(Next(b, a).calls, id)
  {
    OfferedGrows(b, a);
    if a.CallNext? && Enabled(b, a) {
      CallSeen(b, id);
    }
    hide Seen, Pending, HasId, RemoveId, SeenInv, CallInv;
  }

  lemma {:induction false} EndedSpanStays(b: Bus, actions: seq<Action>, id: nat)
    requires Inv(b) && id < |b.spans| && b.spans[id].until.Some?
    ensures var c := Exec(b, actions);
      && id < |c.spans| && c.spans[id] == b.spans[id]
      && Offered(b) <= Offered(c)
      && Seen(b.calls, id) <= Seen(c.calls, id)
    decreases |actions|
  {
    if actions != [] {
      NextInv(b, actions[0]);
      NextKeepsEndedSpan(b, actions[0], id);
      EndedSpanStays(Next(b, actions[0]), actions[1..], id);
    }
  }

  lemma AtMostOneCallAfterEnd(b: Bus, id: nat, after: seq<Action>)
    requires Inv(b) && id < |b.spans| && b.spans[id].until.Some?
    ensures var c := Exec(b, after);
      && !HasId(c.handlers, id)
      && (Seen(c.calls, id) == Seen(b.calls, id) || Seen(c.calls, id) == Seen(b.calls, id) + Pending(b, id))
  {
    ExecInv(b, after);
    EndedSpanStays(b, after, id);
    var c := Exec(b, after);
    assert SeenAt(b, id) && SeenAt(c, id);
    assert Offered(b)[b.spans[id].from..End(b, b.spans[id])] == Offered(c)[c.spans[id].from..End(c, c.spans[id])];
  }

  lemma UnsubscribeEndsSpan(a: Bus, id: nat)
    requires ListInv(a) && id < |a.spans|
    ensures var b := Next(a, Unsubscribe(id));
      && id < |b.spans| && b.spans[id].until.Some? && !HasId(b.handlers, id)
  {
    RemoveIdHas(a.handlers, id, id, a.nextId);
  }

  /** What is left to happen to a handler that was unsubscribed in state `b` and is now in state `c`. */
  ghost predicate AtMostOneMore(b: Bus, c: Bus, id: nat) {
    && !HasId(b.handlers, id) && !HasId(c.handlers, id)
    && |Pending(b, id)| <= 1
    && (Seen(c.calls, id) == Seen(b.calls, id) || Seen(c.calls, id) == Seen(b.calls, id) + Pending(b, id))
  }

  /** After `Unsubscribe` the entry is gone, and whatever runs next the handler is called at most once
      more: with the one event whose delivery had already taken its snapshot. */
  lemma AtMostOneCallAfterUnsubscribe(before: seq<Action>, id: nat, after: seq<Action>)
    requires id < |Exec(Init(), before).spans|
    ensures var b := Next(Exec(Init(), before), Unsubscribe(id));
      AtMostOneMore(b, Exec(b, after), id)
  {
    var a := Exec(Init(), before);
    assert Inv(a) by { ExecInv(Init(), before); }
    var b := Next(a, Unsubscribe(id));
    NextInv(a, Unsubscribe(id));
    UnsubscribeEndsSpan(a, id);
    AtMostOneCallAfterEnd(b, id, after);
  }

  predicate ByConsumer(a: Action) {
    a.Receive? || a.TakeSnapshot? || a.CallNext? || a.FinishDelivery?
  }

  /** What the consumer does next when nothing blocks it. */
  function ConsumerStep(b: Bus): Action {
    match b.consumer
    case Waiting => Receive
    case Received(_) => TakeSnapshot
    case Delivering(_, s, n) => if n < |s| then CallNext else FinishDelivery
  }

  /** Steps left in the delivery in progress. */
  function Work(b: Bus): int {
    match b.consumer
    case Waiting => 0
    case Received(_) => |b.handlers| + 2
    case Delivering(_, s, n) => |s| - n + 1
  }

  lemma ConsumerStepProgress(b: Bus)
    requires ChannelInv(b) && !(b.consumer.Waiting? && b.queue == [])
    ensures var c := Next(b, ConsumerStep(b));
      && (|c.queue| < |b.queue| || (c.queue == b.queue && 0 <= Work(c) < Work(b)))
      && c.accepted == b.accepted && c.spans == b.spans && c.handlers == b.handlers
  {
  }

  ghost predicate Drained(b: Bus, c: Bus) {
    && c.received == b.accepted && c.queue == [] && c.consumer.Waiting?
    && c.spans == b.spans && c.handlers == b.handlers
    && (forall id: nat :: id < |c.spans| && HasId(c.handlers, id) ==>
          c.spans[id].from <= |b.accepted| && Seen(c.calls, id) == b.accepted[c.spans[id].from..])
  }

  lemma IdleMeansDrained(b: Bus)
    requires Inv(b) && b.consumer.Waiting? && b.queue == []
    ensures Drained(b, b)
  {
    forall id: nat | id < |b.spans| && HasId(b.handlers, id)
      ensures b.spans[id].from <= |b.accepted| && Seen(b.calls, id) == b.accepted[b.spans[id].from..]
    {
      assert SeenAt(b, id);
    }
  }

  /** The consumer can always finish on its own, closed channel or not: some run of its steps alone
      receives everything accepted, and then every live handler has seen all since it subscribed. */
  lemma {:induction false} ConsumerCanDrain(b: Bus) returns (actions: seq<Action>)
    requires Inv(b)
    ensures forall a :: a in actions ==> ByConsumer(a)
    ensures Drained(b, Exec(b, actions))
    decreases |b.queue|, Work(b)
  {
    if b.consumer.Waiting? && b.queue == [] {
      actions := [];
      IdleMeansDrained(b);
    } else {
      var a := ConsumerStep(b);
      NextInv(b, a);
      ConsumerStepProgress(b);
      var rest := ConsumerCanDrain(Next(b, a));
      actions := [a] + rest;
      assert actions[1..] == rest;
    }
  }

  /** The further call can always happen: from wherever the registration has ended, the consumer's own steps
      lead to a state in which the handler has been called for the pending event as well. */
  lemma PendingCallComes(b: Bus, id: nat) returns (actions: seq<Action>)
    requires Inv(b) && id < |b.spans| && b.spans[id].until.Some?
    ensures forall a :: a in actions ==> ByConsumer(a)
    ensures Seen(Exec(b, actions).calls, id) == Seen(b.calls, id) + Pending(b, id)
  {
    actions := ConsumerCanDrain(b);
    EndedSpanStays(b, actions, id);
    ExecInv(b, actions);
    var c := Exec(b, actions);
    hide Seen, Exec, HasId, Next;
    assert SeenAt(b, id) && SeenAt(c, id) && Pending(c, id) == [];
    var from, until := b.spans[id].from, b.spans[id].until.value;
    assert Offered(b)[from..until] == Offered(c)[from..until];
    assert Seen(c.calls, id) + [] == Seen(c.calls, id);
  }

  /** After `Unsubscribe` some continuation calls the handler once more if and only if the delivery in
      progress still owes it an event; with `AtMostOneCallAfterUnsubscribe`, exactly once. */
  lemma FurtherCallExactly(before: seq<Action>, id: nat)
    requires id < |Exec(Init(), before).spans|
    ensures var b := Next(Exec(Init(), before), Unsubscribe(id));
      (exists after :: Seen(Exec(b, after).calls, id) != Seen(b.calls, id)) <==> Pending(b, id) != []
  {
    var a := Exec(Init(), before);
    assert Inv(a) by { ExecInv(Init(), before); }
    var b := Next(a, Unsubscribe(id));
    NextInv(a, Unsubscribe(id));
    UnsubscribeEndsSpan(a, id);
    hide Seen, HasId, Next, Inv;
    if Pending(b, id) != [] {
      var after := PendingCallComes(b, id);
      assert Seen(Exec(b, after).calls, id) != Seen(b.calls, id);
    }
    forall after ensures Pending(b, id) == [] ==> Seen(Exec(b, after).calls, id) == Seen(b.calls, id) {
      AtMostOneCallAfterUnsubscribe(before, id, after);
      assert Seen(b.calls, id) + [] == Seen(b.calls, id);
    }
  }

  /** A run that unsubscribes while its event is being delivered, so that one call is still to come. */
  lemma UnsubscribeDuringDelivery() returns (before: seq<Action>)
    ensures var a := Exec(Init(), before);
      |a.spans| == 1 && Pending(Next(a, Unsubscribe(0)), 0) == [SessionIdle]
  {
    before := [On(7), Arrive(SessionIdle), Enqueue, Receive, TakeSnapshot];
    var b1 := Next(Init(), On(7));
    var b2 := Next(b1, Arrive(SessionIdle));
    var b3 := Next(b2, Enqueue);
    var b4 := Next(b3, Receive);
    var b5 := Next(b4, TakeSnapshot);
    assert before[1..][1..][1..][1..][1..] == [];
    assert Exec(Init(), before) == Exec(b1, before[1..]) == Exec(b2, before[1..][1..])
        == Exec(b3, before[1..][1..][1..]) == Exec(b4, before[1..][1..][1..][1..]) == b5;
    assert b5.consumer.snapshot[0..] == [Entry(0, 7)];
  }
}
