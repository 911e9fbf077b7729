/** Any number of clients answering broadcast requests of one server, where the first response to reach
    the server wins. Each client runs the goroutines of `BroadcastDesk`; replies travel in any order. */
module MultiClient {
  import opened Wrappers
  import opened SessionEvents
  import D = BroadcastDesk

  /** A reply on its way: which client sent it, for which of its goroutines and which request. */
  datatype Message = Message(client: nat, task: nat, requestId: string, reply: D.Reply)

  /** What the server returned for a message: whether that message resolved the request. */
  datatype Ack = Ack(message: Message, success: bool)

  datatype System = System(
    desks: seq<D.Desk>,
    issued: map<string, SessionEvent>,
    inFlight: seq<Message>,
    resolved: map<string, Message>,
    acks: seq<Ack>)

  datatype Action =
    | Issue(event: SessionEvent)
    | Deliver(client: nat, requestId: string)
    | Work(client: nat, step: D.Action)
    | Reply(client: nat, task: nat)
    | Arrive(position: nat)

  function RequestId(e: SessionEvent): Option<string> {
    match e
    case ToolRequested(id, _) => Some(id)
    case PermissionRequested(id, _) => Some(id)
    case CommandExecute(id, _) => Some(id)
    case ElicitationRequested(id) => Some(id)
    case _ => None
  }

  function Init(configs: seq<D.Registrations>): System {
    System(seq(|configs|, c requires 0 <= c < |configs| => D.Init(configs[c])), map[], [], map[], [])
  }

  predicate Enabled(s: System, a: Action) {
    match a
    case Issue(e) => RequestId(e).Some? && RequestId(e).value !in s.issued
    case Deliver(c, id) => c < |s.desks| && id in s.issued
    case Work(c, step) => c < |s.desks| && !step.Spawn? && !step.Send?
    case Reply(c, t) =>
      && c < |s.desks| && t < |s.desks[c].tasks| && s.desks[c].tasks[t].stage.Replying?
      && RequestId(s.desks[c].tasks[t].event).Some?
    case Arrive(k) => k < |s.inFlight|
  }

  function Next(s: System, a: Action): System {
    if !Enabled(s, a) then s else
    match a
    case Issue(e) => s.(issued := s.issued[RequestId(e).value := e])
    case Deliver(c, id) => s.(desks := s.desks[c := D.Next(s.desks[c], D.Spawn(s.issued[id]))])
    case Work(c, step) => s.(desks := s.desks[c := D.Next(s.desks[c], step)])
    case Reply(c, t) =>
      var task := s.desks[c].tasks[t];
      s.(desks := s.desks[c := D.Next(s.desks[c], D.Send(t))],
         inFlight := s.inFlight + [Message(c, t, RequestId(task.event).value, task.stage.reply)])
    case Arrive(k) =>
      var m := s.inFlight[k];
      var wins := m.requestId !in s.resolved;
      s.(inFlight := s.inFlight[..k] + s.inFlight[k + 1..],
         resolved := if wins then s.resolved[m.requestId := m] else s.resolved,
         acks := s.acks + [Ack(m, wins)])
  }

  function Exec(s: System, actions: seq<Action>): System
    decreases |actions|
  {
    if actions == [] then s else Exec(Next(s, actions[0]), actions[1..])
  }

  /** How many acknowledgements told a client that it resolved the request. */
  function Successes(acks: seq<Ack>, id: string): nat {
    if acks == [] then 0
    else
      var last := acks[|acks| - 1];
      Successes(acks[..|acks| - 1], id) + (if last.success && last.message.requestId == id then 1 else 0)
  }

  lemma SuccessesAppend(acks: seq<Ack>, a: Ack, id: string)
    ensures Successes(acks + [a], id) ==
      Successes(acks, id) + (if a.success && a.message.requestId == id then 1 else 0)
  {
    assert (acks + [a])[..|acks|] == acks;
  }

  // ---------- the invariant ----------

  /** The message carries a reply its client really sent, for the request the server issued. */
  ghost predicate Backed(s: System, m: Message) {
    && m.client < |s.desks| && m.task < |s.desks[m.client].tasks|
    && m.requestId in s.issued
    && s.desks[m.client].tasks[m.task].event == s.issued[m.requestId]
    && m.reply in D.RepliesOf(s.desks[m.client].sent, m.task)
  }

  ghost predicate DeskInv(configs: seq<D.Registrations>, s: System) {
    && |s.desks| == |configs|
    && (forall c :: 0 <= c < |configs| ==> D.Inv(configs[c], s.desks[c]))
  }

  ghost predicate RequestInv(s: System) {
    && (forall id :: id in s.issued ==> RequestId(s.issued[id]) == Some(id))
    && (forall c, t | 0 <= c < |s.desks| && 0 <= t < |s.desks[c].tasks| ::
          var e := s.desks[c].tasks[t].event;
          RequestId(e).Some? && RequestId(e).value in s.issued && s.issued[RequestId(e).value] == e)
  }

  ghost predicate MessageInv(s: System) {
    && (forall k :: 0 <= k < |s.inFlight| ==> Backed(s, s.inFlight[k]))
    && (forall id :: id in s.resolved ==> s.resolved[id].requestId == id && Backed(s, s.resolved[id]))
  }

  ghost predicate AckInv(s: System) {
    forall id: string :: Successes(s.acks, id) == (if id in s.resolved then 1 else 0)
  }

  /** No reply is lost: a sent reply has resolved its request, found it resolved, or is on its way. */
  ghost predicate Tracked(s: System, c: nat, sent: D.Sent)
    requires c < |s.desks|
  {
    && sent.task < |s.desks[c].tasks|
    && RequestId(s.desks[c].tasks[sent.task].event).Some?
    && var id := RequestId(s.desks[c].tasks[sent.task].event).value;
       id in s.resolved || Message(c, sent.task, id, sent.reply) in s.inFlight
  }

  ghost predicate TrackInv(s: System) {
    forall c, k | 0 <= c < |s.desks| && 0 <= k < |s.desks[c].sent| :: Tracked(s, c, s.desks[c].sent[k])
  }

  ghost predicate Inv(configs: seq<D.Registrations>, s: System) {
    DeskInv(configs, s) && RequestInv(s) && MessageInv(s) && AckInv(s) && TrackInv(s)
  }

  /** Desk steps keep every goroutine's event and never retract a reply. */
  lemma DeskGrows(d: D.Desk, step: D.Action, t: nat)
    requires t < |d.tasks|
    ensures var e := D.Next(d, step);
      && t < |e.tasks| && e.tasks[t].event == d.tasks[t].event
      && d.sent <= e.sent
      && (forall r :: r in D.RepliesOf(d.sent, t) ==> r in D.RepliesOf(e.sent, t))
      && (step.Send? && D.Enabled(d, step) ==> d.tasks[step.task].stage.reply in D.RepliesOf(e.sent, step.task))
      && (!step.Send? ==> e.sent == d.sent)
  {
    if step.Send? && D.Enabled(d, step) {
      D.RepliesAppend(d.sent, D.Sent(step.task, d.tasks[step.task].stage.reply), t);
      D.RepliesAppend(d.sent, D.Sent(step.task, d.tasks[step.task].stage.reply), step.task);
    }
  }

  function DeskStep(s: System, a: Action): Option<(nat, D.Action)>
    requires Enabled(s, a)
  {
    match a
    case Deliver(c, id) => Some((c, D.Spawn(s.issued[id])))
    case Work(c, step) => Some((c, step))
    case Reply(c, t) => Some((c, D.Send(t)))
    case _ => None
  }

  lemma NextDesks(configs: seq<D.Registrations>, s: System, a: Action)
    requires DeskInv(configs, s) && Enabled(s, a)
    ensures DeskInv(configs, Next(s, a))
    ensures match DeskStep(s, a)
      case None => Next(s, a).desks == s.desks
      case Some(p) => p.0 < |s.desks| && Next(s, a).desks == s.desks[p.0 := D.Next(s.desks[p.0], p.1)]
  {
    match DeskStep(s, a)
    case None =>
    case Some(p) => D.NextInv(configs[p.0], s.desks[p.0], p.1);
  }

  lemma NextBacked(configs: seq<D.Registrations>, s: System, a: Action, m: Message)
    requires DeskInv(configs, s) && RequestInv(s) && Enabled(s, a) && Backed(s, m)
    ensures Backed(Next(s, a), m)
  {
    NextDesks(configs, s, a);
    match DeskStep(s, a)
    case None =>
    case Some(p) => DeskGrows(s.desks[m.client], p.1, m.task);
  }

  lemma NextRequests(configs: seq<D.Registrations>, s: System, a: Action)
    requires DeskInv(configs, s) && RequestInv(s) && Enabled(s, a)
    ensures RequestInv(Next(s, a))
  {
    NextDesks(configs, s, a);
    var n := Next(s, a);
    forall c, t | 0 <= c < |n.desks| && 0 <= t < |n.desks[c].tasks|
      ensures var e := n.desks[c].tasks[t].event;
        RequestId(e).Some? && RequestId(e).value in n.issued && n.issued[RequestId(e).value] == e
    {
      if t < |s.desks[c].tasks| {
        match DeskStep(s, a)
        case None =>
        case Some(p) => DeskGrows(s.desks[c], p.1, t);
      }
    }
  }

  lemma NextMessages(configs: seq<D.Registrations>, s: System, a: Action)
    requires DeskInv(configs, s) && RequestInv(s) && MessageInv(s) && Enabled(s, a)
    ensures MessageInv(Next(s, a))
  {
    hide Backed, DeskInv, RequestInv, MessageInv, Next;
    var n := Next(s, a);
    forall m | Backed(s, m) ensures Backed(n, m) {
      NextBacked(configs, s, a, m);
    }
    if a.Reply? {
      ReplyBacked(s, a.client, a.task);
    }
    NextInFlight(s, a);
    MessagesStayBacked(s, n);
  }

  lemma MessagesStayBacked(s: System, n: System)
    requires MessageInv(s)
    requires forall m :: Backed(s, m) ==> Backed(n, m)
    requires forall k :: 0 <= k < |n.inFlight| && n.inFlight[k] !in s.inFlight ==> Backed(n, n.inFlight[k])
    requires forall id :: id in n.resolved ==>
      if id in s.resolved then n.resolved[id] == s.resolved[id]
      else n.resolved[id].requestId == id && n.resolved[id] in s.inFlight
    ensures MessageInv(n)
  {
    hide Backed;
    forall k | 0 <= k < |n.inFlight| ensures Backed(n, n.inFlight[k]) {
      if n.inFlight[k] in s.inFlight {
        assert Backed(s, n.inFlight[k]);
      }
    }
  }

  /** What a step adds to the messages on the way and to the resolved requests. */
  lemma NextInFlight(s: System, a: Action)
    requires Enabled(s, a)
    ensures var n := Next(s, a);
      && (forall k :: 0 <= k < |n.inFlight| ==> n.inFlight[k] in s.inFlight || (a.Reply? && k == |s.inFlight|))
      && (forall id :: id in n.resolved ==>
            if id in s.resolved then n.resolved[id] == s.resolved[id]
            else n.resolved[id].requestId == id && n.resolved[id] in s.inFlight)
  {
  }

  lemma ReplyBacked(s: System, c: nat, t: nat)
    requires RequestInv(s) && Enabled(s, Reply(c, t))
    ensures var n := Next(s, Reply(c, t));
      |n.inFlight| == |s.inFlight| + 1 && Backed(n, n.inFlight[|s.inFlight|])
  {
    DeskGrows(s.desks[c], D.Send(t), t);
  }

  lemma NextAcks(s: System, a: Action)
    requires AckInv(s) && Enabled(s, a)
    ensures AckInv(Next(s, a))
  {
    if a.Arrive? {
      var m := s.inFlight[a.position];
      forall id: string ensures Successes(Next(s, a).acks, id) == (if id in Next(s, a).resolved then 1 else 0) {
        SuccessesAppend(s.acks, Ack(m, m.requestId !in s.resolved), id);
      }
    }
  }

  lemma TrackedKept(configs: seq<D.Registrations>, s: System, a: Action, c: nat, sent: D.Sent)
    requires DeskInv(configs, s) && Enabled(s, a) && c < |s.desks| && Tracked(s, c, sent)
    ensures c < |Next(s, a).desks| && Tracked(Next(s, a), c, sent)
  {
    NextDesks(configs, s, a);
    match DeskStep(s, a)
    case None =>
    case Some(p) => DeskGrows(s.desks[c], p.1, sent.task);
  }

  lemma ReplyTracked(s: System, c: nat, t: nat)
    requires Enabled(s, Reply(c, t))
    ensures var n := Next(s, Reply(c, t));
      && |n.desks| == |s.desks| && |n.desks[c].sent| == |s.desks[c].sent| + 1
      && Tracked(n, c, n.desks[c].sent[|s.desks[c].sent|])
  {
    var n := Next(s, Reply(c, t));
    var m := Message(c, t, RequestId(s.desks[c].tasks[t].event).value, s.desks[c].tasks[t].stage.reply);
    assert n.inFlight[|s.inFlight|] == m;
    assert m in n.inFlight;
  }

  lemma NextTracked(configs: seq<D.Registrations>, s: System, a: Action)
    requires DeskInv(configs, s) && TrackInv(s) && Enabled(s, a)
    ensures TrackInv(Next(s, a))
  {
    NextDesks(configs, s, a);
    var n := Next(s, a);
    forall c, k | 0 <= c < |n.desks| && 0 <= k < |n.desks[c].sent|
      ensures Tracked(n, c, n.desks[c].sent[k])
    {
      if a.Reply? && c == a.client && k == |s.desks[c].sent| {
        ReplyTracked(s, a.client, a.task);
      } else {
        SentBefore(configs, s, a, c, k);
        TrackedKept(configs, s, a, c, s.desks[c].sent[k]);
      }
    }
  }

  lemma SentBefore(configs: seq<D.Registrations>, s: System, a: Action, c: nat, k: nat)
    requires DeskInv(configs, s) && Enabled(s, a)
    requires c < |Next(s, a).desks| && k < |Next(s, a).desks[c].sent|
    requires !(a.Reply? && c == a.client && k == |s.desks[c].sent|)
    ensures c < |s.desks| && k < |s.desks[c].sent| && s.desks[c].sent[k] == Next(s, a).desks[c].sent[k]
  {
    NextDesks(configs, s, a);
  }

  lemma {:induction false} ExecInv(configs: seq<D.Registrations>, s: System, actions: seq<Action>)
    requires Inv(configs, s)
    ensures Inv(configs, Exec(s, actions))
    decreases |actions|
  {
    if actions != [] {
      var a := actions[0];
      if Enabled(s, a) {
        NextDesks(configs, s, a);
        NextRequests(configs, s, a);
        NextMessages(configs, s, a);
        NextAcks(s, a);
        NextTracked(configs, s, a);
      }
      ExecInv(configs, Next(s, a), actions[1..]);
    }
  }

  // ---------- what every run keeps ----------

  /** The decision of a resolved request never changes. */
  lemma {:induction false} ResolvedForGood(s: System, actions: seq<Action>, id: string)
    requires id in s.resolved
    ensures id in Exec(s, actions).resolved && Exec(s, actions).resolved[id] == s.resolved[id]
    decreases |actions|
  {
    if actions != [] {
      ResolvedForGood(Next(s, actions[0]), actions[1..], id);
    }
  }

  /** In every run of any number of clients: a request is acknowledged as resolved exactly once if it is
      resolved and never otherwise; its decision was sent by one client for that very request, and is what
      that client's handler outcome calls for, or the unknown-command default; and while a request some
      client has answered is unresolved, that answer is still on its way. */
  lemma FirstResponseWins(configs: seq<D.Registrations>, actions: seq<Action>, id: string)
    ensures var s := Exec(Init(configs), actions);
      && Successes(s.acks, id) == (if id in s.resolved then 1 else 0)
      && (id in s.resolved ==>
            var m := s.resolved[id];
            && m.client < |s.desks| && m.task < |s.desks[m.client].tasks|
            && id in s.issued && s.desks[m.client].tasks[m.task].event == s.issued[id]
            && D.Justified(s.desks[m.client].tasks[m.task], [m.reply]))
      && (forall c, k | 0 <= c < |s.desks| && 0 <= k < |s.desks[c].sent| :: Tracked(s, c, s.desks[c].sent[k]))
  {
    ExecInv(configs, Init(configs), actions);
    var s := Exec(Init(configs), actions);
    assert TrackInv(s) && AckInv(s);
    if id in s.resolved {
      WinnerIsJustified(configs, s, s.resolved[id]);
    }
  }

  lemma WinnerIsJustified(configs: seq<D.Registrations>, s: System, m: Message)
    requires DeskInv(configs, s) && Backed(s, m)
    ensures D.Justified(s.desks[m.client].tasks[m.task], [m.reply])
  {
    var d := s.desks[m.client];
    assert D.Inv(configs[m.client], d);
    assert D.TaskInv(configs[m.client], d.cleared, d.tasks[m.task], D.RepliesOf(d.sent, m.task));
    assert D.RepliesOf(d.sent, m.task) == [m.reply];
  }

  lemma ExecOne(s: System, a: Action, rest: seq<Action>)
    ensures Exec(s, [a] + rest) == Exec(Next(s, a), rest)
  {
    assert ([a] + rest)[1..] == rest;
  }

  lemma WorkStep(s: System, c: nat, step: D.Action)
    requires c < |s.desks| && !step.Spawn? && !step.Send?
    ensures Next(s, Work(c, step)) == s.(desks := s.desks[c := D.Next(s.desks[c], step)])
  {
  }

  /** No issued request is stuck while some client can answer it: delivering it to that client, letting the
      handler come back with an outcome that calls for a reply, and letting that reply arrive resolves it,
      from every reachable state. */
  lemma CanBeResolved(configs: seq<D.Registrations>, before: seq<Action>, id: string, c: nat, o: D.Outcome)
    returns (actions: seq<Action>)
    requires var s := Exec(Init(configs), before);
      && id in s.issued && c < |s.desks|
      && (D.Handles(s.desks[c].regs, s.issued[id]) ==> D.Fits(s.issued[id], o))
      && D.Answer(s.desks[c].regs, s.issued[id], o).Some?
    ensures id in Exec(Exec(Init(configs), before), actions).resolved
  {
    ExecInv(configs, Init(configs), before);
    actions := ResolvingRun(Exec(Init(configs), before), id, c, o);
  }

  lemma ResolvingRun(s: System, id: string, c: nat, o: D.Outcome) returns (actions: seq<Action>)
    requires RequestInv(s) && id in s.issued && c < |s.desks|
    requires D.Handles(s.desks[c].regs, s.issued[id]) ==> D.Fits(s.issued[id], o)
    requires D.Answer(s.desks[c].regs, s.issued[id], o).Some?
    ensures id in Exec(s, actions).resolved
  {
    var t := |s.desks[c].tasks|;
    var k := |s.inFlight|;
    var s1 := Next(s, Deliver(c, id));
    Delivered(s, id, c);
    WorkStep(s1, c, D.Lookup(t));
    var s2 := Next(s1, Work(c, D.Lookup(t)));
    WorkStep(s2, c, D.SecondLookup(t));
    var s3 := Next(s2, Work(c, D.SecondLookup(t)));
    WorkStep(s3, c, D.Return(t, o));
    var s4 := Next(s3, Work(c, D.Return(t, o)));
    D.ReadyToReply(s1.desks[c], t, o);
    hide D.Next, D.Answer, D.Handles, D.Fits;
    assert s4.inFlight == s.inFlight && s4.desks[c].tasks[t].event == s.issued[id];
    var s5 := Next(s4, Reply(c, t));
    ReplySent(s4, c, t);
    var s6 := Next(s5, Arrive(k));
    assert id in s6.resolved;
    hide Next;
    actions := [Deliver(c, id)] + ([Work(c, D.Lookup(t))] + ([Work(c, D.SecondLookup(t))]
      + ([Work(c, D.Return(t, o))] + ([Reply(c, t)] + ([Arrive(k)] + [])))));
    ExecOne(s, Deliver(c, id), actions[1..]);
    ExecOne(s1, Work(c, D.Lookup(t)), actions[2..]);
    ExecOne(s2, Work(c, D.SecondLookup(t)), actions[3..]);
    ExecOne(s3, Work(c, D.Return(t, o)), actions[4..]);
    ExecOne(s4, Reply(c, t), actions[5..]);
    ExecOne(s5, Arrive(k), []);
    assert actions == [Deliver(c, id)] + actions[1..];
    assert actions[1..] == [Work(c, D.Lookup(t))] + actions[2..];
    assert actions[2..] == [Work(c, D.SecondLookup(t))] + actions[3..];
    assert actions[3..] == [Work(c, D.Return(t, o))] + actions[4..];
    assert actions[4..] == [Reply(c, t)] + actions[5..];
    assert actions[5..] == [Arrive(k)] + [];
  }

  lemma Delivered(s: System, id: string, c: nat)
    requires id in s.issued && c < |s.desks|
    ensures var n := Next(s, Deliver(c, id));
      var t := |s.desks[c].tasks|;
      && |n.desks| == |s.desks| && n.inFlight == s.inFlight && n.desks[c].regs == s.desks[c].regs
      && |n.desks[c].tasks| == t + 1 && n.desks[c].tasks[t] == D.Task(s.issued[id], D.Spawned, None)
  {
  }

  lemma ReplySent(s: System, c: nat, t: nat)
    requires Enabled(s, Reply(c, t))
    ensures var n := Next(s, Reply(c, t));
      && |n.inFlight| == |s.inFlight| + 1
      && n.inFlight[|s.inFlight|].requestId == RequestId(s.desks[c].tasks[t].event).value
  {
  }

  // ---------- what the server has asked ----------

  /** The event asks for an answer under the given id. */
  predicate Asks(e: SessionEvent, id: string) {
    || (e.ToolRequested? && e.requestId == id)
    || (e.PermissionRequested? && e.requestId == id)
    || (e.CommandExecute? && e.requestId == id)
    || (e.ElicitationRequested? && e.requestId == id)
  }

  predicate Issues(a: Action, id: string) {
    a.Issue? && Asks(a.event, id)
  }

  /** The first event of the run that asks under `id`. */
  ghost predicate FirstIssue(actions: seq<Action>, id: string, e: SessionEvent) {
    exists k :: 0 <= k < |actions| && Issues(actions[k], id) && actions[k].event == e
      && forall j :: 0 <= j < k ==> !Issues(actions[j], id)
  }

  lemma NextIssued(s: System, a: Action, id: string)
    ensures id in Next(s, a).issued <==> id in s.issued || Issues(a, id)
    ensures id in s.issued ==> Next(s, a).issued[id] == s.issued[id]
    ensures id !in s.issued && Issues(a, id) ==> Next(s, a).issued[id] == a.event
  {
  }

  lemma {:induction false} IssuedFrom(s: System, actions: seq<Action>, id: string)
    ensures var n := Exec(s, actions);
      if id in s.issued then id in n.issued && n.issued[id] == s.issued[id]
      else
        && (id in n.issued <==> exists k :: 0 <= k < |actions| && Issues(actions[k], id))
        && (id in n.issued ==> FirstIssue(actions, id, n.issued[id]))
    decreases |actions|
  {
    if actions != [] {
      var a, rest := actions[0], actions[1..];
      NextIssued(s, a, id);
      IssuedFrom(Next(s, a), rest, id);
      hide Next, Issues;
      if id !in s.issued {
        assert forall k :: 0 <= k < |rest| ==> rest[k] == actions[k + 1];
        assert forall k :: 0 < k < |actions| ==> actions[k] == rest[k - 1];
        var n := Exec(Next(s, a), rest);
        if !Issues(a, id) && id in n.issued {
          var k :| 0 <= k < |rest| && Issues(rest[k], id) && rest[k].event == n.issued[id]
            && forall j :: 0 <= j < k ==> !Issues(rest[j], id);
          assert Issues(actions[k + 1], id) && actions[k + 1].event == n.issued[id];
        }
      }
    }
  }

  /** In every run a request stands exactly if the server has asked under its id, as the first event that
      asked under it. */
  lemma IssuedExactly(configs: seq<D.Registrations>, actions: seq<Action>, id: string)
    ensures var s := Exec(Init(configs), actions);
      && (id in s.issued <==> exists k :: 0 <= k < |actions| && Issues(actions[k], id))
      && (id in s.issued ==> FirstIssue(actions, id, s.issued[id]))
  {
    IssuedFrom(Init(configs), actions, id);
  }

  // ---------- acknowledgements ----------

  /** All replies the clients have sent. */
  function TotalSent(desks: seq<D.Desk>): nat {
    if desks == [] then 0 else TotalSent(desks[..|desks| - 1]) + |desks[|desks| - 1].sent|
  }

  lemma {:induction false} TotalUpdate(desks: seq<D.Desk>, c: nat, d: D.Desk)
    requires c < |desks|
    ensures TotalSent(desks[c := d]) + |desks[c].sent| == TotalSent(desks) + |d.sent|
  {
    var n := |desks| - 1;
    if c < n {
      assert desks[c := d][..n] == desks[..n][c := d];
      TotalUpdate(desks[..n], c, d);
    } else {
      assert desks[c := d][..n] == desks[..n];
    }
  }

  predicate AckedFor(acks: seq<Ack>, id: string) {
    exists k :: 0 <= k < |acks| && acks[k].message.requestId == id
  }

  ghost predicate AckOrder(s: System) {
    && (forall k :: 0 <= k < |s.acks| ==>
          (s.acks[k].success <==> !AckedFor(s.acks[..k], s.acks[k].message.requestId)))
    && (forall id :: id in s.resolved <==> AckedFor(s.acks, id))
    && |s.acks| + |s.inFlight| == TotalSent(s.desks)
  }

  lemma NextAckOrder(s: System, a: Action)
    requires AckOrder(s)
    ensures AckOrder(Next(s, a))
  {
    if Enabled(s, a) {
      if a.Arrive? {
        ArriveOrder(s, a.position);
      } else {
        AcksKept(s, a);
        hide Next;
      }
    }
  }

  /** A step that is no arrival leaves the acknowledgements alone and puts on the way what is sent. */
  lemma AcksKept(s: System, a: Action)
    requires Enabled(s, a) && !a.Arrive?
    ensures var n := Next(s, a);
      && n.acks == s.acks && n.resolved == s.resolved
      && TotalSent(n.desks) - TotalSent(s.desks) == |n.inFlight| - |s.inFlight|
  {
    match DeskStep(s, a)
    case None =>
    case Some(p) =>
      TotalUpdate(s.desks, p.0, D.Next(s.desks[p.0], p.1));
      SentGrows(s.desks[p.0], p.1);
      hide TotalSent, D.Next;
  }

  lemma SentGrows(d: D.Desk, step: D.Action)
    ensures |D.Next(d, step).sent| == |d.sent| + if step.Send? && D.Enabled(d, step) then 1 else 0
  {
  }

  lemma AckedForAppend(acks: seq<Ack>, a: Ack, id: string)
    ensures AckedFor(acks + [a], id) <==> AckedFor(acks, id) || a.message.requestId == id
  {
    if AckedFor(acks, id) {
      var k :| 0 <= k < |acks| && acks[k].message.requestId == id;
      assert (acks + [a])[k].message.requestId == id;
    }
    if a.message.requestId == id {
      assert (acks + [a])[|acks|].message.requestId == id;
    }
  }

  lemma ArriveOrder(s: System, k: nat)
    requires AckOrder(s) && Enabled(s, Arrive(k))
    ensures AckOrder(Next(s, Arrive(k)))
  {
    var n := Next(s, Arrive(k));
    var ack := n.acks[|s.acks|];
    assert n.acks == s.acks + [ack] && ack.message == s.inFlight[k];
    hide AckedFor, TotalSent;
    forall j | 0 <= j < |n.acks|
      ensures n.acks[j].success <==> !AckedFor(n.acks[..j], n.acks[j].message.requestId)
    {
      if j < |s.acks| {
        assert n.acks[..j] == s.acks[..j];
      } else {
        assert n.acks[..j] == s.acks;
      }
    }
    forall id ensures id in n.resolved <==> AckedFor(n.acks, id) {
      AckedForAppend(s.acks, ack, id);
    }
  }

  lemma {:induction false} ExecAckOrder(s: System, actions: seq<Action>)
    requires AckOrder(s)
    ensures AckOrder(Exec(s, actions))
    decreases |actions|
  {
    hide AckOrder, Next;
    if actions != [] {
      NextAckOrder(s, actions[0]);
      ExecAckOrder(Next(s, actions[0]), actions[1..]);
    }
  }

  lemma {:induction false} NothingSent(configs: seq<D.Registrations>)
    ensures TotalSent(Init(configs).desks) == 0
  {
    if configs != [] {
      var front := configs[..|configs| - 1];
      assert Init(configs).desks[..|configs| - 1] == Init(front).desks;
      NothingSent(front);
    }
  }

  /** In every run each reply that arrives is acknowledged, as a success exactly if it is the first for its
      request, and every reply ever sent has been acknowledged or is on its way. */
  lemma EveryArrivalIsAcknowledged(configs: seq<D.Registrations>, actions: seq<Action>)
    ensures var s := Exec(Init(configs), actions);
      && (forall k :: 0 <= k < |s.acks| ==>
            (s.acks[k].success <==> !AckedFor(s.acks[..k], s.acks[k].message.requestId)))
      && (forall id :: id in s.resolved <==> AckedFor(s.acks, id))
      && |s.acks| + |s.inFlight| == TotalSent(s.desks)
  {
    NothingSent(configs);
    assert AckOrder(Init(configs));
    ExecAckOrder(Init(configs), actions);
  }
}
