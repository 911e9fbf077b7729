/** The Go client's session registry while sessions are created: every create call registers its session
    before it sends the request, the server emits events for an id only once it has that request, and one
    read loop dispatches what arrives. Any number of calls run at once, on distinct ids. */
module SessionRegistry {
  import opened Wrappers
  import opened SessionEvents

  datatype Phase =
    | Begun
    | Registered
    | Sent
    | Answered(ok: bool)
    | RollingBack
    | Succeeded
    | Failed

  /** One create call: `sent` says that its request left the client, `atServer` that it arrived. Its session
      object is identified by its position among all calls. */
  datatype Create = Create(id: string, phase: Phase, sent: bool, atServer: bool)

  datatype Packet =
    | EventFor(id: string, event: SessionEvent)
    | Response(call: nat, ok: bool)

  datatype Dispatched = Dispatched(session: nat, id: string, event: SessionEvent)

  /** `wire` is what the server has written and the read loop has not read, `hand` the event it has looked up
      a session for and not dispatched yet, having let go of the registry's lock. `emitted`, `routed` and
      `dispatched` are the traces of the server, the lookups and the dispatches; `removed` collects ids taken
      out by a delete or a stop. */
  datatype Net = Net(
    creates: seq<Create>,
    sessions: map<string, nat>,
    wire: seq<Packet>,
    emitted: seq<Packet>,
    routed: seq<Dispatched>,
    hand: Option<Dispatched>,
    dispatched: seq<Dispatched>,
    removed: set<string>)

  datatype Action =
    | Begin(id: string)
    | Register(call: nat)
    | MissingFsHandler(call: nat)
    | SendRequest(call: nat)
    | ServerReceives(call: nat)
    | Emit(id: string, event: SessionEvent)
    | Respond(call: nat, ok: bool)
    | ReadPacket
    | DispatchHand
    | LocalFailure(call: nat)
    | Complete(call: nat)
    | Rollback(call: nat)
    | Delete(id: string)
    | Stop

  function Init(): Net {
    Net([], map[], [], [], [], None, [], {})
  }

  predicate Used(n: Net, id: string) {
    exists i :: 0 <= i < |n.creates| && n.creates[i].id == id
  }

  predicate At(n: Net, i: nat, p: Phase) {
    i < |n.creates| && n.creates[i].phase == p
  }

  predicate Enabled(n: Net, a: Action) {
    match a
    case Begin(id) => !Used(n, id)
    case Register(i) => At(n, i, Begun)
    case MissingFsHandler(i) => At(n, i, Registered)
    case SendRequest(i) => At(n, i, Registered)
    case ServerReceives(i) => i < |n.creates| && n.creates[i].sent && !n.creates[i].atServer
    case Emit(id, _) => exists i :: 0 <= i < |n.creates| && n.creates[i].id == id && n.creates[i].atServer
    case Respond(i, _) => i < |n.creates| && n.creates[i].atServer
    case ReadPacket => n.wire != [] && n.hand.None?
    case DispatchHand => n.hand.Some?
    case LocalFailure(i) => At(n, i, Sent)
    case Complete(i) => i < |n.creates| && n.creates[i].phase.Answered?
    case Rollback(i) => At(n, i, RollingBack)
    case Delete(_) => true
    case Stop => true
  }

  function SetPhase(n: Net, i: nat, p: Phase): Net
    requires i < |n.creates|
  {
    n.(creates := n.creates[i := n.creates[i].(phase := p)])
  }

  /** What the read loop does with one packet: an event is taken in hand for the session registered for its
      id, a response goes to the call that waits for it; anything else is dropped. */
  function Handle(n: Net, p: Packet): Net {
    match p
    case EventFor(id, e) =>
      if id in n.sessions then
        var x := Dispatched(n.sessions[id], id, e);
        n.(routed := n.routed + [x], hand := Some(x))
      else n
    case Response(i, ok) =>
      if At(n, i, Sent) then SetPhase(n, i, Answered(ok)) else n
  }

  function Next(n: Net, a: Action): Net {
    if !Enabled(n, a) then n else
    match a
    case Begin(id) => n.(creates := n.creates + [Create(id, Begun, false, false)])
    case Register(i) => SetPhase(n, i, Registered).(sessions := n.sessions[n.creates[i].id := i])
    case MissingFsHandler(i) => SetPhase(n, i, RollingBack)
    case SendRequest(i) => n.(creates := n.creates[i := n.creates[i].(phase := Sent, sent := true)])
    case ServerReceives(i) => n.(creates := n.creates[i := n.creates[i].(atServer := true)])
    case Emit(id, e) => n.(wire := n.wire + [EventFor(id, e)], emitted := n.emitted + [EventFor(id, e)])
    case Respond(i, ok) => n.(wire := n.wire + [Response(i, ok)])
    case ReadPacket => Handle(n.(wire := n.wire[1..]), n.wire[0])
    case DispatchHand => n.(dispatched := n.dispatched + [n.hand.value], hand := None)
    case LocalFailure(i) => SetPhase(n, i, RollingBack)
    case Complete(i) => SetPhase(n, i, if n.creates[i].phase.ok then Succeeded else RollingBack)
    case Rollback(i) => SetPhase(n, i, Failed).(sessions := n.sessions - {n.creates[i].id})
    case Delete(id) =>
      n.(sessions := n.sessions - {id}, removed := if id in n.sessions then n.removed + {id} else n.removed)
    case Stop => n.(sessions := map[], removed := n.removed + n.sessions.Keys)
  }

  function Exec(n: Net, actions: seq<Action>): Net
    decreases |actions|
  {
    if actions == [] then n else Exec(Next(n, actions[0]), actions[1..])
  }

  lemma ExecSnoc(n: Net, actions: seq<Action>, a: Action)
    ensures Exec(n, actions + [a]) == Next(Exec(n, actions), a)
    decreases |actions|
  {
    hide Next;
    if actions == [] {
      assert [] + [a] == [a] && [a][1..] == [];
    } else {
      assert (actions + [a])[0] == actions[0] && (actions + [a])[1..] == actions[1..] + [a];
      ExecSnoc(Next(n, actions[0]), actions[1..], a);
    }
  }

  /** One more step of a concrete run. */
  lemma Extend(s: seq<Action>, n: Net, a: Action) returns (t: seq<Action>, m: Net)
    requires Exec(Init(), s) == n
    ensures t == s + [a] && m == Next(n, a) && Exec(Init(), t) == m
  {
    ExecSnoc(Init(), s, a);
    t, m := s + [a], Next(n, a);
  }

  /** The events for `id` among packets, in order. */
  function EventsFor(packets: seq<Packet>, id: string): seq<SessionEvent> {
    if packets == [] then []
    else
      (match packets[0] case EventFor(x, e) => if x == id then [e] else [] case _ => [])
      + EventsFor(packets[1..], id)
  }

  /** The events dispatched to session `i`, in order. */
  function DispatchedTo(d: seq<Dispatched>, i: nat): seq<SessionEvent> {
    if d == [] then []
    else DispatchedTo(d[..|d| - 1], i) + (if d[|d| - 1].session == i then [d[|d| - 1].event] else [])
  }

  lemma {:induction false} EventsForConcat(p: seq<Packet>, q: seq<Packet>, id: string)
    ensures EventsFor(p + q, id) == EventsFor(p, id) + EventsFor(q, id)
    decreases |p|
  {
    if p == [] {
      assert p + q == q;
    } else {
      assert (p + q)[0] == p[0] && (p + q)[1..] == p[1..] + q;
      EventsForConcat(p[1..], q, id);
    }
  }

  lemma EventsForOne(p: Packet, id: string)
    ensures EventsFor([p], id) == (match p case EventFor(x, e) => if x == id then [e] else [] case _ => [])
  {
    assert [p][1..] == [];
  }

  lemma DispatchedAppend(d: seq<Dispatched>, x: Dispatched, i: nat)
    ensures DispatchedTo(d + [x], i) == DispatchedTo(d, i) + (if x.session == i then [x.event] else [])
  {
    assert (d + [x])[..|d|] == d;
  }

  // ---------- the invariant ----------

  /** The calls whose session is in the registry: registered, and neither rolled back nor removed. */
  predicate Live(n: Net, i: nat)
    requires i < |n.creates|
  {
    !n.creates[i].phase.Begun? && !n.creates[i].phase.Failed? && n.creates[i].id !in n.removed
  }

  ghost predicate RegistryInv(n: Net) {
    && (forall id :: id in n.removed ==> Used(n, id))
    && (forall i :: 0 <= i < |n.creates| && n.creates[i].phase.Begun? ==> n.creates[i].id !in n.removed)
    && (forall i, j :: 0 <= i < j < |n.creates| ==> n.creates[i].id != n.creates[j].id)
    && (forall id :: id in n.sessions ==>
          n.sessions[id] < |n.creates| && n.creates[n.sessions[id]].id == id && Live(n, n.sessions[id]))
    && (forall i :: 0 <= i < |n.creates| && Live(n, i) ==>
          n.creates[i].id in n.sessions && n.sessions[n.creates[i].id] == i)
  }

  ghost predicate ServerInv(n: Net) {
    && (forall i :: 0 <= i < |n.creates| && n.creates[i].atServer ==> n.creates[i].sent)
    && (forall i :: 0 <= i < |n.creates| && n.creates[i].sent ==>
          !n.creates[i].phase.Begun? && !n.creates[i].phase.Registered?)
    && (forall i :: 0 <= i < |n.creates| && !n.creates[i].atServer ==> EventsFor(n.emitted, n.creates[i].id) == [])
    && (forall id: string :: !Used(n, id) ==> EventsFor(n.emitted, id) == [] && EventsFor(n.wire, id) == [])
  }

  ghost predicate DispatchInv(n: Net) {
    forall k :: 0 <= k < |n.routed| ==>
      n.routed[k].session < |n.creates| && n.creates[n.routed[k].session].id == n.routed[k].id
  }

  /** What was emitted for the call's id is what the read loop looked its session up for, followed by what is
      still on the wire. */
  predicate AllRouted(n: Net, i: nat)
    requires i < |n.creates|
  {
    EventsFor(n.emitted, n.creates[i].id) == DispatchedTo(n.routed, i) + EventsFor(n.wire, n.creates[i].id)
  }

  ghost predicate FlowInv(n: Net) {
    forall i: nat :: i < |n.creates| && !n.creates[i].phase.Failed? && n.creates[i].id !in n.removed ==> AllRouted(n, i)
  }

  /** What the read loop looked the call's session up for is a prefix of what was emitted for its id. */
  predicate RoutedPrefix(n: Net, i: nat)
    requires i < |n.creates|
  {
    DispatchedTo(n.routed, i) <= EventsFor(n.emitted, n.creates[i].id)
  }

  ghost predicate PrefixInv(n: Net) {
    forall i: nat :: i < |n.creates| ==> RoutedPrefix(n, i)
  }

  /** Every lookup has been dispatched but the one in hand. */
  ghost predicate HandInv(n: Net) {
    n.routed == n.dispatched + ToSeq(n.hand)
  }

  ghost predicate Inv(n: Net) {
    RegistryInv(n) && ServerInv(n) && DispatchInv(n) && FlowInv(n) && PrefixInv(n) && HandInv(n)
  }

  lemma UsedStays(n: Net, a: Action, id: string)
    requires Enabled(n, a)
    ensures Used(n, id) ==> Used(Next(n, a), id)
  {
    if Used(n, id) {
      var i :| 0 <= i < |n.creates| && n.creates[i].id == id;
      assert Next(n, a).creates[i].id == id;
    }
  }

  lemma RemovedWereUsed(n: Net, a: Action)
    requires RegistryInv(n) && Enabled(n, a)
    ensures forall id :: id in Next(n, a).removed ==> Used(Next(n, a), id)
  {
    forall id | id in Next(n, a).removed ensures Used(Next(n, a), id) {
      if id !in n.removed {
        assert n.creates[n.sessions[id]].id == id;
      }
      UsedStays(n, a, id);
    }
  }

  predicate ChangesRegistry(a: Action) {
    a.Begin? || a.Register? || a.Rollback? || a.Delete? || a.Stop?
  }

  lemma NextRegistryBegin(n: Net, a: Action)
    requires RegistryInv(n) && Enabled(n, a) && a.Begin?
    ensures RegistryInv(Next(n, a))
  {
    RemovedWereUsed(n, a);
    assert forall i :: 0 <= i < |n.creates| ==> n.creates[i].id != a.id;
  }

  lemma NextRegistryRegister(n: Net, a: Action)
    requires RegistryInv(n) && Enabled(n, a) && a.Register?
    ensures RegistryInv(Next(n, a))
  {
    RemovedWereUsed(n, a);
  }

  lemma NextRegistryRollback(n: Net, a: Action)
    requires RegistryInv(n) && Enabled(n, a) && a.Rollback?
    ensures RegistryInv(Next(n, a))
  {
    RemovedWereUsed(n, a);
  }

  lemma NextRegistryRemoval(n: Net, a: Action)
    requires RegistryInv(n) && (a.Delete? || a.Stop?)
    ensures RegistryInv(Next(n, a))
  {
    RemovedWereUsed(n, a);
    hide Used;
    var m := Next(n, a);
    assert forall i :: 0 <= i < |n.creates| ==> Live(m, i) ==> Live(n, i) && n.creates[i].id in n.sessions;
  }

  /** The two states agree on everything the registry depends on. */
  ghost predicate SameRegistry(n: Net, m: Net) {
    && m.sessions == n.sessions && m.removed == n.removed && |m.creates| == |n.creates|
    && forall i :: 0 <= i < |n.creates| ==>
         && m.creates[i].id == n.creates[i].id
         && (m.creates[i].phase.Begun? <==> n.creates[i].phase.Begun?)
         && (m.creates[i].phase.Failed? <==> n.creates[i].phase.Failed?)
  }

  lemma OtherStepsKeepRegistry(n: Net, a: Action)
    requires Enabled(n, a) && !ChangesRegistry(a)
    ensures SameRegistry(n, Next(n, a))
  {
  }

  lemma SameRegistryInv(n: Net, m: Net)
    requires RegistryInv(n) && SameRegistry(n, m)
    ensures RegistryInv(m)
  {
    forall id | id in m.removed ensures Used(m, id) {
      var i :| 0 <= i < |n.creates| && n.creates[i].id == id;
      assert m.creates[i].id == id;
    }
    assert forall i :: 0 <= i < |n.creates| ==> Live(m, i) == Live(n, i);
  }

  lemma NextRegistry(n: Net, a: Action)
    requires RegistryInv(n) && Enabled(n, a)
    ensures RegistryInv(Next(n, a))
  {
    match a {
      case Begin(_) => NextRegistryBegin(n, a);
      case Register(_) => NextRegistryRegister(n, a);
      case Rollback(_) => NextRegistryRollback(n, a);
      case Delete(_) => NextRegistryRemoval(n, a);
      case Stop => NextRegistryRemoval(n, a);
      case _ =>
        OtherStepsKeepRegistry(n, a);
        SameRegistryInv(n, Next(n, a));
    }
  }

  /** What a step does to the events for one id at the two ends of the wire. */
  lemma TracesFor(n: Net, a: Action, id: string)
    requires Enabled(n, a)
    ensures var m := Next(n, a);
      if a.Emit? && a.id == id then
        && EventsFor(m.emitted, id) == EventsFor(n.emitted, id) + [a.event]
        && EventsFor(m.wire, id) == EventsFor(n.wire, id) + [a.event]
      else if a.ReadPacket? && n.wire[0].EventFor? && n.wire[0].id == id then
        && EventsFor(m.emitted, id) == EventsFor(n.emitted, id)
        && EventsFor(n.wire, id) == [n.wire[0].event] + EventsFor(m.wire, id)
      else
        && EventsFor(m.emitted, id) == EventsFor(n.emitted, id)
        && EventsFor(m.wire, id) == EventsFor(n.wire, id)
  {
    match a {
      case Emit(x, e) =>
        EventsForConcat(n.emitted, [EventFor(x, e)], id);
        EventsForConcat(n.wire, [EventFor(x, e)], id);
        EventsForOne(EventFor(x, e), id);
      case Respond(i, ok) =>
        EventsForConcat(n.wire, [Response(i, ok)], id);
        EventsForOne(Response(i, ok), id);
      case _ =>
    }
  }

  /** What a step does to the list of calls: ids never change, a server never forgets a request. */
  lemma CallsStep(n: Net, a: Action)
    requires Enabled(n, a)
    ensures var m := Next(n, a);
      && |n.creates| <= |m.creates|
      && (forall i :: 0 <= i < |n.creates| ==>
            m.creates[i].id == n.creates[i].id && (n.creates[i].atServer ==> m.creates[i].atServer))
      && (|n.creates| < |m.creates| ==>
            a.Begin? && m.creates == n.creates + [Create(a.id, Begun, false, false)])
  {
  }

  lemma NextServerUnused(n: Net, a: Action, id: string)
    requires ServerInv(n) && Enabled(n, a) && !Used(Next(n, a), id)
    ensures EventsFor(Next(n, a).emitted, id) == [] && EventsFor(Next(n, a).wire, id) == []
  {
    UsedStays(n, a, id);
    TracesFor(n, a, id);
    assert !(a.Emit? && a.id == id);
    hide EventsFor, Next;
  }

  lemma NextServerSilent(n: Net, a: Action, i: nat)
    requires ServerInv(n) && Enabled(n, a) && DistinctIds(n)
    requires i < |Next(n, a).creates| && !Next(n, a).creates[i].atServer
    ensures EventsFor(Next(n, a).emitted, Next(n, a).creates[i].id) == []
  {
    CallsStep(n, a);
    TracesFor(n, a, Next(n, a).creates[i].id);
    hide EventsFor, Next;
    if i == |n.creates| {
      assert !Used(n, a.id);
    } else {
      assert n.creates[i].id == Next(n, a).creates[i].id && !n.creates[i].atServer;
    }
  }

  ghost predicate DistinctIds(n: Net) {
    forall i, j :: 0 <= i < j < |n.creates| ==> n.creates[i].id != n.creates[j].id
  }

  lemma NextServerPhase(n: Net, a: Action, i: nat)
    requires ServerInv(n) && Enabled(n, a)
    requires i < |Next(n, a).creates|
    ensures var c := Next(n, a).creates[i];
      (c.atServer ==> c.sent) && (c.sent ==> !c.phase.Begun? && !c.phase.Registered?)
  {
    hide EventsFor, Used;
  }

  lemma NextServer(n: Net, a: Action)
    requires RegistryInv(n) && ServerInv(n) && Enabled(n, a)
    ensures ServerInv(Next(n, a))
  {
    var m := Next(n, a);
    assert DistinctIds(n);
    forall id: string | !Used(m, id)
      ensures EventsFor(m.emitted, id) == [] && EventsFor(m.wire, id) == []
    {
      NextServerUnused(n, a, id);
    }
    forall i | 0 <= i < |m.creates| && !m.creates[i].atServer
      ensures EventsFor(m.emitted, m.creates[i].id) == []
    {
      NextServerSilent(n, a, i);
    }
    forall i | 0 <= i < |m.creates|
      ensures m.creates[i].atServer ==> m.creates[i].sent
      ensures m.creates[i].sent ==> !m.creates[i].phase.Begun? && !m.creates[i].phase.Registered?
    {
      NextServerPhase(n, a, i);
    }
    hide EventsFor, RegistryInv, Next, Enabled;
  }

  lemma NextDispatch(n: Net, a: Action)
    requires RegistryInv(n) && DispatchInv(n) && Enabled(n, a)
    ensures DispatchInv(Next(n, a))
  {
    CallsStep(n, a);
    hide Used;
  }

  lemma NeverDispatched(d: seq<Dispatched>, i: nat)
    requires forall k :: 0 <= k < |d| ==> d[k].session != i
    ensures DispatchedTo(d, i) == []
  {
  }

  lemma NewCallFlow(n: Net, id: string)
    requires ServerInv(n) && DispatchInv(n) && Enabled(n, Begin(id))
    ensures var m := Next(n, Begin(id));
      |m.creates| == |n.creates| + 1 && AllRouted(m, |n.creates|)
  {
    NeverDispatched(n.routed, |n.creates|);
  }

  lemma ReadFlow(n: Net, i: nat)
    requires RegistryInv(n) && ServerInv(n) && Enabled(n, ReadPacket)
    requires i < |n.creates| && AllRouted(n, i)
    requires !n.creates[i].phase.Failed? && n.creates[i].id !in n.removed
    ensures i < |Next(n, ReadPacket).creates| && AllRouted(Next(n, ReadPacket), i)
  {
    var id := n.creates[i].id;
    var m := Next(n, ReadPacket);
    TracesFor(n, ReadPacket, id);
    CallsStep(n, ReadPacket);
    ReadTarget(n, i);
    HandleDispatch(n.(wire := n.wire[1..]), n.wire[0], i);
    assert m == Handle(n.(wire := n.wire[1..]), n.wire[0]);
    hide EventsFor, DispatchedTo, RegistryInv, ServerInv, Used, Handle, Next, Enabled;
    var given, unread := DispatchedTo(n.routed, i), EventsFor(m.wire, id);
    if n.wire[0].EventFor? && n.wire[0].id == id {
      ConcatAssoc(given, [n.wire[0].event], unread);
      assert DispatchedTo(m.routed, i) == given + [n.wire[0].event];
    } else {
      assert DispatchedTo(m.routed, i) == given + [] == given;
    }
  }

  lemma HandleDispatch(n: Net, p: Packet, i: nat)
    ensures DispatchedTo(Handle(n, p).routed, i) == DispatchedTo(n.routed, i)
      + if p.EventFor? && p.id in n.sessions && n.sessions[p.id] == i then [p.event] else []
  {
    if p.EventFor? && p.id in n.sessions {
      DispatchedAppend(n.routed, Dispatched(n.sessions[p.id], p.id, p.event), i);
    }
  }

  /** An event that is read reaches the session of a pending call exactly when it carries that call's id. */
  lemma ReadTarget(n: Net, i: nat)
    requires RegistryInv(n) && ServerInv(n) && n.wire != []
    requires i < |n.creates| && AllRouted(n, i)
    requires !n.creates[i].phase.Failed? && n.creates[i].id !in n.removed
    ensures n.wire[0].EventFor? ==>
      (n.wire[0].id in n.sessions && n.sessions[n.wire[0].id] == i <==> n.wire[0].id == n.creates[i].id)
  {
    if n.wire[0].EventFor? && n.wire[0].id == n.creates[i].id {
      assert n.creates[i].atServer && Live(n, i);
    }
  }

  lemma OldCallFlow(n: Net, a: Action, i: nat)
    requires Enabled(n, a) && !a.ReadPacket?
    requires i < |n.creates| && AllRouted(n, i)
    ensures i < |Next(n, a).creates| && AllRouted(Next(n, a), i)
  {
    CallsStep(n, a);
    DispatchedKept(n, a);
    TracesFor(n, a, n.creates[i].id);
    hide EventsFor, DispatchedTo, Next, Enabled, Used;
    if a.Emit? {
      ConcatAssoc(DispatchedTo(n.routed, i), EventsFor(n.wire, n.creates[i].id), [a.event]);
    }
  }

  lemma NextFlow(n: Net, a: Action)
    requires Inv(n) && Enabled(n, a)
    ensures FlowInv(Next(n, a))
  {
    var m := Next(n, a);
    forall i: nat | i < |m.creates| && !m.creates[i].phase.Failed? && m.creates[i].id !in m.removed
      ensures AllRouted(m, i)
    {
      if a.Begin? && i == |n.creates| {
        NewCallFlow(n, a.id);
      } else {
        StillPending(n, a, i);
        if a.ReadPacket? {
          ReadFlow(n, i);
        } else {
          OldCallFlow(n, a, i);
        }
      }
    }
  }

  /** A step either reads, or leaves what every session was given alone. */
  lemma DispatchedKept(n: Net, a: Action)
    requires Enabled(n, a) && !a.ReadPacket?
    ensures Next(n, a).routed == n.routed
  {
  }

  /** The read loop gives nothing to a session that has failed or was removed. */
  lemma NothingAfterRemoval(n: Net, i: nat)
    requires RegistryInv(n) && Enabled(n, ReadPacket) && i < |n.creates|
    requires n.creates[i].phase.Failed? || n.creates[i].id in n.removed
    ensures DispatchedTo(Next(n, ReadPacket).routed, i) == DispatchedTo(n.routed, i)
  {
    HandleDispatch(n.(wire := n.wire[1..]), n.wire[0], i);
    assert Next(n, ReadPacket) == Handle(n.(wire := n.wire[1..]), n.wire[0]);
    assert DispatchedTo(n.routed, i) + [] == DispatchedTo(n.routed, i);
    hide DispatchedTo, Handle, Next;
  }

  lemma OldCallPrefix(n: Net, a: Action, i: nat)
    requires RegistryInv(n) && ServerInv(n) && FlowInv(n) && Enabled(n, a)
    requires i < |n.creates| && RoutedPrefix(n, i)
    ensures i < |Next(n, a).creates| && RoutedPrefix(Next(n, a), i)
  {
    CallsStep(n, a);
    TracesFor(n, a, n.creates[i].id);
    if a.ReadPacket? {
      if n.creates[i].phase.Failed? || n.creates[i].id in n.removed {
        NothingAfterRemoval(n, i);
      } else {
        ReadFlow(n, i);
      }
    } else {
      DispatchedKept(n, a);
    }
    hide EventsFor, DispatchedTo, RegistryInv, ServerInv, FlowInv, Next, Enabled;
  }

  lemma NextPrefix(n: Net, a: Action)
    requires Inv(n) && Enabled(n, a)
    ensures PrefixInv(Next(n, a))
  {
    var m := Next(n, a);
    forall i: nat | i < |m.creates| ensures RoutedPrefix(m, i) {
      CallsStep(n, a);
      if i < |n.creates| {
        OldCallPrefix(n, a, i);
      } else {
        NeverDispatched(n.routed, i);
        DispatchedKept(n, a);
      }
    }
  }

  lemma NextHand(n: Net, a: Action)
    requires HandInv(n) && Enabled(n, a)
    ensures HandInv(Next(n, a))
  {
  }

  /** Failure and removal are for good. */
  lemma StillPending(n: Net, a: Action, i: nat)
    requires Enabled(n, a) && i < |Next(n, a).creates| && !(a.Begin? && i == |n.creates|)
    requires !Next(n, a).creates[i].phase.Failed? && Next(n, a).creates[i].id !in Next(n, a).removed
    ensures i < |n.creates| && !n.creates[i].phase.Failed? && n.creates[i].id !in n.removed
  {
  }

  lemma {:induction false} ExecInv(n: Net, actions: seq<Action>)
    requires Inv(n)
    ensures Inv(Exec(n, actions))
    decreases |actions|
  {
    if actions != [] {
      var a := actions[0];
      if Enabled(n, a) {
        NextRegistry(n, a);
        NextServer(n, a);
        NextDispatch(n, a);
        NextFlow(n, a);
        NextPrefix(n, a);
        NextHand(n, a);
      }
      ExecInv(Next(n, a), actions[1..]);
    }
  }

  lemma RunInv(actions: seq<Action>)
    ensures Inv(Exec(Init(), actions))
  {
    ExecInv(Init(), actions);
  }

  // ---------- what every run keeps ----------

  /** The event in hand for session `i`. */
  function InHand(n: Net, i: nat): seq<SessionEvent> {
    DispatchedTo(ToSeq(n.hand), i)
  }

  lemma {:induction false} DispatchedConcat(d: seq<Dispatched>, e: seq<Dispatched>, i: nat)
    ensures DispatchedTo(d + e, i) == DispatchedTo(d, i) + DispatchedTo(e, i)
    decreases |e|
  {
    if e == [] {
      assert d + e == d;
    } else {
      var n := |e| - 1;
      assert (d + e)[..|d + e| - 1] == d + e[..n];
      DispatchedConcat(d, e[..n], i);
    }
  }

  /** Nothing lost, nothing reordered: what was emitted for the call's id is what its session was given, the
      event in hand for it, and what is still on the wire. */
  ghost predicate NothingLost(n: Net, i: nat)
    requires i < |n.creates|
  {
    EventsFor(n.emitted, n.creates[i].id)
      == DispatchedTo(n.dispatched, i) + InHand(n, i) + EventsFor(n.wire, n.creates[i].id)
  }

  /** In every run, for every create call that has not failed and whose id nobody removed: the events the
      server emitted for its id are those its session object was given, in order, followed by the one in hand
      for it and those the read loop has still to read. Nothing was lost or reordered. */
  lemma RegisterBeforeSendLosesNothing(actions: seq<Action>, i: nat)
    requires i < |Exec(Init(), actions).creates|
    requires !Exec(Init(), actions).creates[i].phase.Failed?
    requires Exec(Init(), actions).creates[i].id !in Exec(Init(), actions).removed
    ensures NothingLost(Exec(Init(), actions), i)
  {
    RunInv(actions);
    var n := Exec(Init(), actions);
    assert AllRouted(n, i) && HandInv(n);
    DispatchedConcat(n.dispatched, ToSeq(n.hand), i);
  }

  /** In every run this holds of every call, failed and removed ones included: what its session was given,
      with the event in hand for it, is a prefix of what the server emitted for its id. */
  lemma SessionsSeeAPrefix(actions: seq<Action>, i: nat)
    requires i < |Exec(Init(), actions).creates|
    ensures var n := Exec(Init(), actions);
      DispatchedTo(n.dispatched, i) + InHand(n, i) <= EventsFor(n.emitted, n.creates[i].id)
  {
    RunInv(actions);
    var n := Exec(Init(), actions);
    assert RoutedPrefix(n, i) && HandInv(n);
    DispatchedConcat(n.dispatched, ToSeq(n.hand), i);
  }

  predicate Gone(n: Net, i: nat)
    requires i < |n.creates|
  {
    n.creates[i].phase.Failed? || n.creates[i].id in n.removed
  }

  lemma GoneStays(n: Net, a: Action, i: nat)
    requires RegistryInv(n) && i < |n.creates| && Gone(n, i)
    ensures i < |Next(n, a).creates| && Gone(Next(n, a), i)
    ensures DispatchedTo(Next(n, a).routed, i) == DispatchedTo(n.routed, i)
  {
    if Enabled(n, a) {
      CallsStep(n, a);
      if a.ReadPacket? {
        NothingAfterRemoval(n, i);
      } else {
        DispatchedKept(n, a);
      }
      PhaseStays(n, a, i);
      hide Next, DispatchedTo;
    }
  }

  lemma PhaseStays(n: Net, a: Action, i: nat)
    requires Enabled(n, a) && i < |n.creates|
    ensures i < |Next(n, a).creates| && n.removed <= Next(n, a).removed
    ensures n.creates[i].phase.Failed? ==> Next(n, a).creates[i].phase.Failed?
  {
  }

  lemma {:induction false} RoutedNoMore(n: Net, actions: seq<Action>, i: nat)
    requires Inv(n) && i < |n.creates| && Gone(n, i)
    ensures var m := Exec(n, actions);
      Inv(m) && DispatchedTo(m.routed, i) == DispatchedTo(n.routed, i)
    decreases |actions|
  {
    if actions != [] {
      var a := actions[0];
      GoneStays(n, a, i);
      ExecInv(n, [a]);
      assert [a][1..] == [] && Exec(n, [a]) == Next(n, a);
      hide Next, Inv, Gone, DispatchedTo;
      RoutedNoMore(Next(n, a), actions[1..], i);
    }
  }

  /** Once a call has failed or its session was removed, the session is given at most one more event, however
      the run goes on: the one that was already in hand for it. */
  lemma AtMostOneAfterRemoval(before: seq<Action>, i: nat, after: seq<Action>)
    requires i < |Exec(Init(), before).creates| && Gone(Exec(Init(), before), i)
    ensures var n := Exec(Init(), before);
      var m := Exec(n, after);
      && |InHand(n, i)| <= 1
      && (DispatchedTo(m.dispatched, i) == DispatchedTo(n.dispatched, i)
          || DispatchedTo(m.dispatched, i) == DispatchedTo(n.dispatched, i) + InHand(n, i))
  {
    hide RegistryInv, ServerInv, DispatchInv, FlowInv, PrefixInv, Gone, DispatchedTo, Next;
    RunInv(before);
    var n := Exec(Init(), before);
    RoutedNoMore(n, after, i);
    var m := Exec(n, after);
    DispatchedConcat(n.dispatched, ToSeq(n.hand), i);
    DispatchedConcat(m.dispatched, ToSeq(m.hand), i);
    DispatchedGrows(n, after, i);
    AtMostOneInHand(n, i);
    AtMostOneInHand(m, i);
    hide Exec;
    var x, y := DispatchedTo(n.dispatched, i), DispatchedTo(m.dispatched, i);
    assert x + InHand(n, i) == y + InHand(m, i);
    if InHand(n, i) == [] {
      assert x + [] == x;
    } else if |y| == |x| {
      assert (x + InHand(n, i))[..|x|] == (y + InHand(m, i))[..|x|];
    } else {
      assert InHand(m, i) == [] && y + [] == y;
    }
  }

  lemma AtMostOneInHand(n: Net, i: nat)
    ensures |InHand(n, i)| <= 1
  {
    if n.hand.Some? {
      DispatchedAppend([], n.hand.value, i);
      assert [] + [n.hand.value] == ToSeq(n.hand);
    }
  }

  lemma {:induction false} DispatchedGrows(n: Net, actions: seq<Action>, i: nat)
    ensures |DispatchedTo(n.dispatched, i)| <= |DispatchedTo(Exec(n, actions).dispatched, i)|
    decreases |actions|
  {
    if actions != [] {
      var m := Next(n, actions[0]);
      if m.dispatched != n.dispatched {
        DispatchedAppend(n.dispatched, n.hand.value, i);
      }
      hide Next;
      DispatchedGrows(m, actions[1..], i);
    }
  }

  /** A run in which a removed session is given the event that was in hand. */
  lemma ServedAfterRemoval() returns (before: seq<Action>)
    ensures var n := Exec(Init(), before);
      && |n.creates| == 1 && Gone(n, 0) && n.sessions == map[]
      && DispatchedTo(n.dispatched, 0) == [] && DispatchedTo(Next(n, DispatchHand).dispatched, 0) == [SessionIdle]
  {
    var n: Net;
    before, n := SentRun();
    hide Exec;
    EmitEffect(n);
    before, n := Extend(before, n, Emit("s", SessionIdle));
    before, n := Extend(before, n, ReadPacket);
    before, n := Extend(before, n, Delete("s"));
    assert n.creates == [Create("s", Sent, true, true)] && n.sessions == map[] && n.removed == {"s"};
    DispatchedAppend([], n.hand.value, 0);
    assert [] + [n.hand.value] == Next(n, DispatchHand).dispatched;
  }

  /** A run whose one call has reached the server. */
  lemma SentRun() returns (s: seq<Action>, n: Net)
    ensures Exec(Init(), s) == n
    ensures n == Net([Create("s", Sent, true, true)], map["s" := 0], [], [], [], None, [], {})
  {
    s, n := [], Init();
    assert Exec(Init(), s) == n;
    hide Exec;
    s, n := Extend(s, n, Begin("s"));
    assert n.creates == [Create("s", Begun, false, false)];
    s, n := Extend(s, n, Register(0));
    assert n.creates == [Create("s", Registered, false, false)] && n.sessions == map["s" := 0];
    s, n := Extend(s, n, SendRequest(0));
    assert n.creates == [Create("s", Sent, true, false)];
    s, n := Extend(s, n, ServerReceives(0));
    assert n.creates == [Create("s", Sent, true, true)];
  }

  lemma EmitEffect(n: Net)
    requires n == Net([Create("s", Sent, true, true)], map["s" := 0], [], [], [], None, [], {})
    ensures Next(n, Emit("s", SessionIdle)) ==
      n.(wire := [EventFor("s", SessionIdle)], emitted := [EventFor("s", SessionIdle)])
  {
    assert n.creates[0].id == "s" && n.creates[0].atServer;
    assert Enabled(n, Emit("s", SessionIdle));
  }

  /** In every run no session is given an event of another id, and no two calls share an id. */
  lemma EventsReachOnlyTheirSession(actions: seq<Action>)
    ensures var n := Exec(Init(), actions);
      && (forall k :: 0 <= k < |n.dispatched| ==>
            n.dispatched[k].session < |n.creates| && n.creates[n.dispatched[k].session].id == n.dispatched[k].id)
      && (forall i, j :: 0 <= i < j < |n.creates| ==> n.creates[i].id != n.creates[j].id)
  {
    RunInv(actions);
    var n := Exec(Init(), actions);
    assert forall k :: 0 <= k < |n.dispatched| ==> n.routed[k] == n.dispatched[k];
  }

  /** In every run the registry holds exactly the calls that registered and neither failed nor were
      removed; so a failed call leaves no entry, and every other call its own. */
  lemma RegistryHoldsTheLiveCalls(actions: seq<Action>, id: string, i: nat)
    ensures var n := Exec(Init(), actions);
      (id in n.sessions && n.sessions[id] == i) <==> (i < |n.creates| && n.creates[i].id == id && Live(n, i))
  {
    RunInv(actions);
    assert RegistryInv(Exec(Init(), actions));
    hide Exec, ServerInv, DispatchInv, FlowInv, PrefixInv, HandInv, Used;
  }

  // ---------- what becomes of a call ----------

  datatype Verdict = Undecided | Accepted | Refused

  /** What the steps of a run decide about call `i`, the first decision standing: the verdict of a response
      read for it, or a local failure, such as a missing file-system handler. */
  function VerdictOf(actions: seq<Action>, i: nat): Verdict {
    if actions == [] then Undecided
    else
      var front, a := actions[..|actions| - 1], actions[|actions| - 1];
      var was := VerdictOf(front, i);
      if was.Undecided? then Decided(Exec(Init(), front), a, i) else was
  }

  function Decided(n: Net, a: Action, i: nat): Verdict {
    if !Enabled(n, a) then Undecided
    else if a == MissingFsHandler(i) || a == LocalFailure(i) then Refused
    else if a.ReadPacket? && n.wire[0] == Response(i, true) then Accepted
    else if a.ReadPacket? && n.wire[0] == Response(i, false) then Refused
    else Undecided
  }

  /** The verdicts the server gave on call `i`, in order. */
  function Given(actions: seq<Action>, i: nat): seq<bool> {
    if actions == [] then []
    else
      var front, a := actions[..|actions| - 1], actions[|actions| - 1];
      Given(front, i) + if a.Respond? && a.call == i && Enabled(Exec(Init(), front), a) then [a.ok] else []
  }

  /** The verdicts on call `i` that the read loop has read, in order. */
  function Read(actions: seq<Action>, i: nat): seq<bool> {
    if actions == [] then []
    else
      var front, a := actions[..|actions| - 1], actions[|actions| - 1];
      var n := Exec(Init(), front);
      Read(front, i) + if a.ReadPacket? && Enabled(n, a) then VerdictsIn(n.wire[..1], i) else []
  }

  function VerdictsIn(packets: seq<Packet>, i: nat): seq<bool> {
    if packets == [] then []
    else
      (match packets[0] case Response(j, ok) => if j == i then [ok] else [] case _ => [])
      + VerdictsIn(packets[1..], i)
  }

  lemma {:induction false} VerdictsInConcat(p: seq<Packet>, q: seq<Packet>, i: nat)
    ensures VerdictsIn(p + q, i) == VerdictsIn(p, i) + VerdictsIn(q, i)
    decreases |p|
  {
    if p == [] {
      assert p + q == q;
    } else {
      assert (p + q)[0] == p[0] && (p + q)[1..] == p[1..] + q;
      VerdictsInConcat(p[1..], q, i);
    }
  }

  /** No verdict is lost, reordered or changed on its way. */
  lemma {:induction false} VerdictsArrive(actions: seq<Action>, i: nat)
    ensures Given(actions, i) == Read(actions, i) + VerdictsIn(Exec(Init(), actions).wire, i)
    decreases |actions|
  {
    if actions != [] {
      var front, a := actions[..|actions| - 1], actions[|actions| - 1];
      var n := Exec(Init(), front);
      VerdictsArrive(front, i);
      ExecSnoc(Init(), front, a);
      assert actions == front + [a];
      VerdictsStep(n, a, i);
      var read, wire := Read(front, i), VerdictsIn(n.wire, i);
      hide Exec, VerdictsIn, Next;
      var more := if a.Respond? && a.call == i && Enabled(n, a) then [a.ok] else [];
      var taken := if a.ReadPacket? && Enabled(n, a) then VerdictsIn(n.wire[..1], i) else [];
      assert VerdictsIn(n.wire, i) + more == taken + VerdictsIn(Next(n, a).wire, i);
      ConcatAssoc(read, wire, more);
      ConcatAssoc(read, taken, VerdictsIn(Next(n, a).wire, i));
    }
  }

  lemma VerdictsStep(n: Net, a: Action, i: nat)
    ensures var more := if a.Respond? && a.call == i && Enabled(n, a) then [a.ok] else [];
      var taken := if a.ReadPacket? && Enabled(n, a) then VerdictsIn(n.wire[..1], i) else [];
      VerdictsIn(n.wire, i) + more == taken + VerdictsIn(Next(n, a).wire, i)
  {
    if a.ReadPacket? && Enabled(n, a) {
      VerdictsInConcat(n.wire[..1], n.wire[1..], i);
      assert n.wire == n.wire[..1] + n.wire[1..];
    } else if Enabled(n, a) && (a.Respond? || a.Emit?) {
      var p := if a.Respond? then Response(a.call, a.ok) else EventFor(a.id, a.event);
      VerdictsInConcat(n.wire, [p], i);
      assert [p][1..] == [];
    } else {
      WireKept(n, a);
    }
  }

  lemma WireKept(n: Net, a: Action)
    requires !Enabled(n, a) || !(a.ReadPacket? || a.Respond? || a.Emit?)
    ensures Next(n, a).wire == n.wire
  {
  }

  /** A response on the wire answers a request that was sent. */
  ghost predicate ResponseInv(n: Net) {
    forall k :: 0 <= k < |n.wire| && n.wire[k].Response? ==>
      n.wire[k].call < |n.creates| && n.creates[n.wire[k].call].atServer
  }

  lemma NextResponse(n: Net, a: Action)
    requires ResponseInv(n)
    ensures ResponseInv(Next(n, a))
  {
    if Enabled(n, a) {
      CallsStep(n, a);
      if !(a.ReadPacket? || a.Respond? || a.Emit?) {
        WireKept(n, a);
        hide Next;
      }
    }
  }

  /** Where a call can be, given what was decided about it. */
  predicate Consistent(v: Verdict, p: Phase) {
    match v
    case Undecided => p.Begun? || p.Registered? || p.Sent?
    case Accepted => p == Answered(true) || p.Succeeded?
    case Refused => p == Answered(false) || p.RollingBack? || p.Failed?
  }

  lemma NothingOnTheWire()
    ensures ResponseInv(Init())
  {
  }

  lemma {:induction false} VerdictInv(actions: seq<Action>, i: nat)
    ensures var n := Exec(Init(), actions);
      Inv(n) && ResponseInv(n) && (if i < |n.creates| then Consistent(VerdictOf(actions, i), n.creates[i].phase)
                                   else VerdictOf(actions, i).Undecided?)
    decreases |actions|
  {
    RunInv(actions);
    hide Next, ResponseInv, Decided, RegistryInv, ServerInv, DispatchInv, FlowInv, PrefixInv, HandInv;
    if actions == [] {
      NothingOnTheWire();
    } else {
      var front, a := actions[..|actions| - 1], actions[|actions| - 1];
      VerdictInv(front, i);
      assert actions == front + [a];
      ExecSnoc(Init(), front, a);
      hide Exec;
      var n := Exec(Init(), front);
      NextResponse(n, a);
      VerdictStep(n, a, i, VerdictOf(front, i));
      hide Consistent;
    }
  }

  lemma VerdictStep(n: Net, a: Action, i: nat, v: Verdict)
    requires ServerInv(n) && ResponseInv(n)
    requires if i < |n.creates| then Consistent(v, n.creates[i].phase) else v.Undecided?
    ensures var m := Next(n, a);
      var w := if v.Undecided? then Decided(n, a, i) else v;
      if i < |m.creates| then Consistent(w, m.creates[i].phase) else w.Undecided?
  {
    hide EventsFor, Used;
  }

  /** What the run decided about a call is what becomes of it. It succeeds only if the first verdict the server
      gave on it was to accept it, and fails only if that was to refuse it or it failed locally. An accepted
      call keeps its entry unless it is removed, and its own remaining steps change nothing but its phase; a
      refused one has no entry once they are done. */
  lemma VerdictDecides(actions: seq<Action>, i: nat)
    requires i < |Exec(Init(), actions).creates|
    ensures var n := Exec(Init(), actions);
      var c := n.creates[i];
      var v := VerdictOf(actions, i);
      var done := Next(Next(n, Complete(i)), Rollback(i));
      && (c.phase.Succeeded? ==> v.Accepted?)
      && (c.phase.Failed? ==> v.Refused?)
      && (v.Accepted? ==>
            && done.creates[i].phase.Succeeded? && done.sessions == n.sessions
            && (c.id !in n.removed ==> c.id in n.sessions && n.sessions[c.id] == i))
      && (v.Refused? ==> done.creates[i].phase.Failed? && c.id !in done.sessions)
  {
    VerdictInv(actions, i);
    var n := Exec(Init(), actions);
    OwnSteps(n, i);
    assert RegistryInv(n);
    hide Exec, Next, VerdictOf, ServerInv, DispatchInv, FlowInv, PrefixInv, HandInv, ResponseInv, Used;
    FailedIsOut(n, i);
    assert VerdictOf(actions, i).Accepted? && n.creates[i].id !in n.removed ==> Live(n, i);
    hide RegistryInv;
  }

  lemma FailedIsOut(n: Net, i: nat)
    requires RegistryInv(n) && i < |n.creates|
    ensures n.creates[i].phase.Failed? ==> n.creates[i].id !in n.sessions
    ensures Live(n, i) ==> n.creates[i].id in n.sessions && n.sessions[n.creates[i].id] == i
  {
    hide Used;
  }

  lemma OwnSteps(n: Net, i: nat)
    requires i < |n.creates|
    ensures var done := Next(Next(n, Complete(i)), Rollback(i));
      var p := n.creates[i].phase;
      && |done.creates| == |n.creates|
      && (p == Answered(true) || p.Succeeded? ==> done.creates[i].phase.Succeeded? && done.sessions == n.sessions)
      && (p == Answered(false) || p.RollingBack? ==>
            done.creates[i].phase.Failed? && done.sessions == n.sessions - {n.creates[i].id})
      && (p.Failed? ==> done == n)
  {
  }

  lemma {:induction false} ReadDecides(actions: seq<Action>, i: nat)
    ensures VerdictOf(actions, i).Undecided? ==> Read(actions, i) == []
    ensures VerdictOf(actions, i).Accepted? ==> Read(actions, i) != [] && Read(actions, i)[0]
    ensures VerdictOf(actions, i).Refused? && !FailsLocally(actions, i) ==>
      Read(actions, i) != [] && !Read(actions, i)[0]
    decreases |actions|
  {
    if actions != [] {
      var front, a := actions[..|actions| - 1], actions[|actions| - 1];
      ReadDecides(front, i);
      var n := Exec(Init(), front);
      hide Exec, Next;
      if a.ReadPacket? && Enabled(n, a) {
        HeadVerdict(n.wire, i);
      }
      var more := if a.ReadPacket? && Enabled(n, a) then VerdictsIn(n.wire[..1], i) else [];
      var was, fails := VerdictOf(front, i), Enabled(n, a) && (a == MissingFsHandler(i) || a == LocalFailure(i));
      assert Read(actions, i) == Read(front, i) + more;
      assert VerdictOf(actions, i) == if was.Undecided? then Decided(n, a, i) else was;
      assert FailsLocally(actions, i) == (FailsLocally(front, i) || fails);
      hide VerdictsIn, Read, VerdictOf, FailsLocally;
    }
  }

  lemma HeadVerdict(wire: seq<Packet>, i: nat)
    requires wire != []
    ensures VerdictsIn(wire[..1], i) ==
      if wire[0].Response? && wire[0].call == i then [wire[0].ok] else []
  {
    assert wire[..1] == [wire[0]] && [wire[0]][1..] == [];
  }

  /** The verdict of a response is the one the server gave first on the call. */
  lemma VerdictIsTheServers(actions: seq<Action>, i: nat)
    ensures VerdictOf(actions, i).Accepted? ==> Given(actions, i) != [] && Given(actions, i)[0]
    ensures VerdictOf(actions, i).Refused? && !FailsLocally(actions, i) ==>
      Given(actions, i) != [] && !Given(actions, i)[0]
  {
    ReadDecides(actions, i);
    VerdictsArrive(actions, i);
    hide VerdictOf, Read, Given, FailsLocally, VerdictsIn, Exec;
  }

  /** Call `i` took a step by which it fails on its own. */
  predicate FailsLocally(actions: seq<Action>, i: nat) {
    if actions == [] then false
    else
      var front, a := actions[..|actions| - 1], actions[|actions| - 1];
      || FailsLocally(front, i)
      || (Enabled(Exec(Init(), front), a) && (a == MissingFsHandler(i) || a == LocalFailure(i)))
  }

  /** A delete takes out one id, a stop all of them, and both say so. */
  lemma RemovalsRemove(n: Net, id: string, x: string)
    ensures x in Next(n, Delete(id)).sessions <==> x in n.sessions && x != id
    ensures x in Next(n, Delete(id)).removed <==> x in n.removed || (x == id && x in n.sessions)
    ensures x !in Next(n, Stop).sessions
    ensures x in Next(n, Stop).removed <==> x in n.removed || x in n.sessions
  {
  }

  // ---------- one call on the client object ----------

  /** The two calls that register a session. */
  datatype Verb = CreateSession | ResumeSession

  /** How the request of one call ends. */
  datatype RpcOutcome = Created(workspace: string) | RequestError(message: string) | BadResponse(message: string)

  const CREATE_FAILED := "failed to create session: "
  const RESUME_FAILED := "failed to resume session: "
  const FS_HANDLER_REQUIRED := 
    "CreateSessionFsHandler is required in session config when SessionFs is enabled in client options"

  class Client {
    var sessions: map<string, nat>
    var sessionFs: bool

    constructor (sessionFs: bool)
      ensures sessions == map[] && this.sessionFs == sessionFs
    {
      this.sessions, this.sessionFs := map[], sessionFs;
    }

    /** `CreateSession` and `ResumeSessionWithOptions` from the registration on. */
    method Create(verb: Verb, id: string, session: nat, hasFsHandler: bool, rpc: RpcOutcome)
      returns (r: Result<nat, string>)
      modifies this`sessions
      ensures r.Ok? <==> (sessionFs ==> hasFsHandler) && rpc.Created?
      ensures r.Ok? ==> r.value == session && sessions == old(sessions)[id := session]
      ensures r.Err? ==> sessions == old(sessions) - {id}
      ensures sessionFs && !hasFsHandler ==> r == Err(FS_HANDLER_REQUIRED)
      ensures (sessionFs ==> hasFsHandler) && rpc.BadResponse? ==>
        r == Err("failed to unmarshal response: " + rpc.message)
      ensures (sessionFs ==> hasFsHandler) && rpc.RequestError? ==>
        r == Err(if verb.CreateSession? then CREATE_FAILED + rpc.message else RESUME_FAILED + rpc.message)
      ensures r.Err? ==> (sessions == old(sessions) <==> id !in old(sessions))
    {
      sessions := sessions[id := session];
      if sessionFs {
        if !hasFsHandler {
          sessions := sessions - {id};
          return Err(FS_HANDLER_REQUIRED);
        }
      }
      match rpc
      case RequestError(m) =>
        sessions := sessions - {id};
        if verb.CreateSession? {
          return Err(CREATE_FAILED + m);
        } else {
          return Err(RESUME_FAILED + m);
        }
      case BadResponse(m) =>
        sessions := sessions - {id};
        return Err("failed to unmarshal response: " + m);
      case Created(_) =>
        return Ok(session);
    }
  }
}
