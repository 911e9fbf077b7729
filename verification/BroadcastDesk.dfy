/** Broadcast requests of a Go session: one goroutine per dispatched event looks up a handler, calls it
    and replies over RPC, while `Disconnect` may clear the handlers one kind at a time. */
module BroadcastDesk {
  import opened Wrappers
  import opened SessionEvents

  const APPROVED := "approved"
  const NO_RESULT := "no-result"
  const DENIED := "denied-no-approval-rule-and-could-not-request-from-user"

  /** Handlers a session has registered, by tool or command name where there is one. */
  datatype Registrations = Registrations(tools: set<string>, permission: bool, commands: set<string>, elicitation: bool)

  /** A tool result; `printed` is how the whole value is formatted as text. */
  datatype ToolResult = ToolResult(text: string, resultType: string, error: string, printed: string)

  /** What a user handler did. Command and elicitation handlers are assumed not to panic. */
  datatype Outcome =
    | ToolReturned(result: ToolResult)
    | PermissionReturned(kind: string)
    | CommandReturned
    | ElicitationReturned(action: string, content: map<string, string>)
    | Failed(message: string)
    | Panicked(text: string)

  /** The payload of one reply RPC. */
  datatype Reply =
    | ToolAnswer(text: string, resultType: string, toolError: Option<string>)
    | ToolFailure(message: string)
    | Decision(kind: string)
    | CommandDone(commandError: Option<string>)
    | ElicitationAnswer(action: string, content: map<string, string>)

  predicate Fits(event: SessionEvent, o: Outcome) {
    match event
    case ToolRequested(_, _) => o.ToolReturned? || o.Failed? || o.Panicked?
    case PermissionRequested(_, _) => o.PermissionReturned? || o.Failed? || o.Panicked?
    case CommandExecute(_, _) => o.CommandReturned? || o.Failed?
    case ElicitationRequested(_) => o.ElicitationReturned? || o.Failed?
    case _ => false
  }

  /** A session with these registrations calls a handler for the event. */
  predicate Handles(regs: Registrations, event: SessionEvent) {
    match event
    case ToolRequested(_, tool) => tool in regs.tools
    case PermissionRequested(_, hook) => hook != Some(true) && regs.permission
    case CommandExecute(_, command) => command in regs.commands
    case ElicitationRequested(_) => regs.elicitation
    case _ => false
  }

  function UnknownCommand(event: SessionEvent): Reply
    requires event.CommandExecute?
  {
    CommandDone(Some("Unknown command: " + event.commandName))
  }

  /** The reply a handler outcome calls for; a permission handler may decline to reply. */
  function ReplyTo(event: SessionEvent, o: Outcome): Option<Reply>
    requires Fits(event, o)
  {
    match event
    case ToolRequested(_, _) => (
      match o
      case ToolReturned(r) =>
        Some(ToolAnswer(
          if r.text == "" then r.printed else r.text,
          if r.resultType != "" then r.resultType else if r.error != "" then "failure" else "success",
          if r.error != "" then Some(r.error) else None))
      case Failed(m) => Some(ToolFailure(m))
      case Panicked(t) => Some(ToolFailure("tool panic: " + t)))
    case PermissionRequested(_, _) => (
      match o
      case PermissionReturned(kind) => if kind == NO_RESULT then None else Some(Decision(kind))
      case _ => Some(Decision(DENIED)))
    case CommandExecute(_, _) => (
      match o
      case CommandReturned => Some(CommandDone(None))
      case Failed(m) => Some(CommandDone(Some(m))))
    case ElicitationRequested(_) => (
      match o
      case ElicitationReturned(action, content) => Some(ElicitationAnswer(action, content))
      case Failed(_) => Some(ElicitationAnswer("cancel", map[])))
  }

  // ---------- the step system ----------

  datatype Stage = Spawned | HandlerSeen | Calling | Replying(reply: Reply) | Finished

  datatype Task = Task(event: SessionEvent, stage: Stage, outcome: Option<Outcome>)

  datatype Sent = Sent(task: nat, reply: Reply)

  /** `cleared` records that some handlers were removed by a `Disconnect`. */
  datatype Desk = Desk(regs: Registrations, cleared: bool, tasks: seq<Task>, sent: seq<Sent>)

  datatype Action =
    | Spawn(event: SessionEvent)
    | Lookup(task: nat)
    | SecondLookup(task: nat)
    | Return(task: nat, outcome: Outcome)
    | Send(task: nat)
    | ClearTools
    | ClearPermission
    | ClearCommands
    | ClearElicitation

  function Init(regs: Registrations): Desk {
    Desk(regs, false, [], [])
  }

  /** The first lookup of a goroutine, which decides whether it calls a handler at all. */
  function AfterLookup(regs: Registrations, event: SessionEvent): Stage {
    match event
    case ToolRequested(_, tool) => if tool in regs.tools then Calling else Finished
    case PermissionRequested(_, hook) =>
      if hook.Some? && hook.value then Finished
      else if regs.permission then Calling else Finished
    case CommandExecute(_, command) =>
      if command in regs.commands then Calling else Replying(UnknownCommand(event))
    case ElicitationRequested(_) => if regs.elicitation then HandlerSeen else Finished
    case _ => Finished
  }

  predicate Enabled(d: Desk, a: Action) {
    match a
    case Lookup(i) => i < |d.tasks| && d.tasks[i].stage.Spawned?
    case SecondLookup(i) => i < |d.tasks| && d.tasks[i].stage.HandlerSeen?
    case Return(i, o) => i < |d.tasks| && d.tasks[i].stage.Calling? && Fits(d.tasks[i].event, o)
    case Send(i) => i < |d.tasks| && d.tasks[i].stage.Replying?
    case _ => true
  }

  function Next(d: Desk, a: Action): Desk {
    if !Enabled(d, a) then d else
    match a
    case Spawn(e) => d.(tasks := d.tasks + [Task(e, Spawned, None)])
    case Lookup(i) =>
      d.(tasks := d.tasks[i := d.tasks[i].(stage := AfterLookup(d.regs, d.tasks[i].event))])
    case SecondLookup(i) =>
      d.(tasks := d.tasks[i := d.tasks[i].(stage := if d.regs.elicitation then Calling else Finished)])
    case Return(i, o) =>
      var stage := match ReplyTo(d.tasks[i].event, o) case None => Finished case Some(r) => Replying(r);
      d.(tasks := d.tasks[i := d.tasks[i].(stage := stage, outcome := Some(o))])
    case Send(i) =>
      d.(tasks := d.tasks[i := d.tasks[i].(stage := Finished)],
         sent := d.sent + [Sent(i, d.tasks[i].stage.reply)])
    case ClearTools => d.(regs := d.regs.(tools := {}), cleared := true)
    case ClearPermission => d.(regs := d.regs.(permission := false), cleared := true)
    case ClearCommands => d.(regs := d.regs.(commands := {}), cleared := true)
    case ClearElicitation => d.(regs := d.regs.(elicitation := false), cleared := true)
  }

  function Exec(d: Desk, actions: seq<Action>): Desk
    decreases |actions|
  {
    if actions == [] then d else Exec(Next(d, actions[0]), actions[1..])
  }

  /** Each clearing step drops the handlers of one kind and leaves the others. */
  lemma ClearsOneKind(d: Desk)
    ensures Next(d, ClearTools).regs == d.regs.(tools := {})
    ensures Next(d, ClearPermission).regs == d.regs.(permission := false)
    ensures Next(d, ClearCommands).regs == d.regs.(commands := {})
    ensures Next(d, ClearElicitation).regs == d.regs.(elicitation := false)
  {
  }

  lemma {:induction false} ExecConcat(d: Desk, s: seq<Action>, t: seq<Action>)
    ensures Exec(d, s + t) == Exec(Exec(d, s), t)
    decreases |s|
  {
    hide Next;
    if s == [] {
      assert s + t == t;
    } else {
      assert (s + t)[0] == s[0] && (s + t)[1..] == s[1..] + t;
      ExecConcat(Next(d, s[0]), s[1..], t);
    }
  }

  /** The events the goroutines were spawned for, in order. */
  function Events(tasks: seq<Task>): seq<SessionEvent> {
    seq(|tasks|, i requires 0 <= i < |tasks| => tasks[i].event)
  }

  /** Only a spawn adds a goroutine, and none ever changes its event. */
  lemma NextEvents(d: Desk, a: Action)
    ensures Events(Next(d, a).tasks) == Events(d.tasks) + if a.Spawn? then [a.event] else []
  {
    if !a.Spawn? {
      assert Events(d.tasks) + [] == Events(d.tasks);
    }
  }

  lemma {:induction false} ExecEvents(d: Desk, actions: seq<Action>)
    requires forall i :: 0 <= i < |actions| ==> !actions[i].Spawn?
    ensures Events(Exec(d, actions).tasks) == Events(d.tasks)
    decreases |actions|
  {
    hide Next, Events;
    if actions != [] {
      NextEvents(d, actions[0]);
      ExecEvents(Next(d, actions[0]), actions[1..]);
    }
  }

  /** The replies task `i` has sent, in order. */
  function RepliesOf(sent: seq<Sent>, i: nat): seq<Reply> {
    if sent == [] then []
    else
      var last := sent[|sent| - 1];
      RepliesOf(sent[..|sent| - 1], i) + (if last.task == i then [last.reply] else [])
  }

  lemma RepliesAppend(sent: seq<Sent>, s: Sent, i: nat)
    ensures RepliesOf(sent + [s], i) == RepliesOf(sent, i) + (if s.task == i then [s.reply] else [])
  {
    assert (sent + [s])[..|sent|] == sent;
  }

  lemma RepliesNone(sent: seq<Sent>, i: nat)
    requires forall k :: 0 <= k < |sent| ==> sent[k].task != i
    ensures RepliesOf(sent, i) == []
  {
  }

  // ---------- the invariant ----------

  /** The replies that fit a request whose handlers were left alone: its handler's, or its default. */
  ghost predicate AnsweredAs(config: Registrations, t: Task, replies: seq<Reply>) {
    if Handles(config, t.event) then
      t.outcome.Some? && Fits(t.event, t.outcome.value) && replies == ToSeq(ReplyTo(t.event, t.outcome.value))
    else
      t.outcome.None? && replies == (if t.event.CommandExecute? then [UnknownCommand(t.event)] else [])
  }

  /** The replies that fit a request at any time: the recorded outcome's, or a default. */
  ghost predicate Justified(t: Task, replies: seq<Reply>) {
    match t.outcome
    case Some(o) => Fits(t.event, o) && replies == ToSeq(ReplyTo(t.event, o))
    case None => replies == (if t.event.CommandExecute? then [UnknownCommand(t.event)] else [])
  }

  ghost predicate TaskInv(config: Registrations, cleared: bool, t: Task, replies: seq<Reply>) {
    match t.stage
    case Spawned => t.outcome.None? && replies == []
    case HandlerSeen => t.outcome.None? && replies == [] && t.event.ElicitationRequested? && Handles(config, t.event)
    case Calling => t.outcome.None? && replies == [] && Handles(config, t.event)
    case Replying(r) => replies == [] && Justified(t, [r]) && (!cleared ==> AnsweredAs(config, t, [r]))
    case Finished => Justified(t, replies) && (!cleared ==> AnsweredAs(config, t, replies))
  }

  ghost predicate Inv(config: Registrations, d: Desk) {
    && d.regs.tools <= config.tools && (d.regs.permission ==> config.permission)
    && d.regs.commands <= config.commands && (d.regs.elicitation ==> config.elicitation)
    && (!d.cleared ==> d.regs == config)
    && (forall k :: 0 <= k < |d.sent| ==> d.sent[k].task < |d.tasks|)
    && (forall i :: 0 <= i < |d.tasks| ==> TaskInv(config, d.cleared, d.tasks[i], RepliesOf(d.sent, i)))
  }

  lemma NextInv(config: Registrations, d: Desk, a: Action)
    requires Inv(config, d)
    ensures Inv(config, Next(d, a))
  {
    if Enabled(d, a) {
      var e := Next(d, a);
      forall i | 0 <= i < |e.tasks|
        ensures TaskInv(config, e.cleared, e.tasks[i], RepliesOf(e.sent, i))
      {
        NextTask(config, d, a, i);
      }
      hide RepliesOf, TaskInv;
    }
  }

  lemma NextTask(config: Registrations, d: Desk, a: Action, i: nat)
    requires Inv(config, d) && Enabled(d, a) && i < |Next(d, a).tasks|
    ensures var e := Next(d, a); TaskInv(config, e.cleared, e.tasks[i], RepliesOf(e.sent, i))
  {
    if i == |d.tasks| {
      RepliesNone(d.sent, i);
    } else {
      var replies := RepliesOf(d.sent, i);
      assert TaskInv(config, d.cleared, d.tasks[i], replies);
      StepOfTask(d, a, i);
      hide RepliesOf, Next, Inv;
      if OwnStep(a, i) {
        OwnTask(config, d.cleared, d.regs, d.tasks[i], replies, a);
      }
    }
  }

  /** The steps of goroutine `i` itself. */
  predicate OwnStep(a: Action, i: nat) {
    || (a.Lookup? && a.task == i) || (a.SecondLookup? && a.task == i)
    || (a.Return? && a.task == i) || (a.Send? && a.task == i)
  }

  /** What a step of its own makes of a goroutine, and what it sends. */
  function Stepped(regs: Registrations, t: Task, a: Action): Task {
    match a
    case Lookup(_) => t.(stage := AfterLookup(regs, t.event))
    case SecondLookup(_) => t.(stage := if regs.elicitation then Calling else Finished)
    case Return(_, o) =>
      if Fits(t.event, o) then
        t.(stage := match ReplyTo(t.event, o) case None => Finished case Some(r) => Replying(r), outcome := Some(o))
      else t
    case _ => t.(stage := Finished)
  }

  lemma StepOfTask(d: Desk, a: Action, i: nat)
    requires Enabled(d, a) && i < |d.tasks|
    ensures var e := Next(d, a);
      && |e.tasks| >= |d.tasks|
      && e.tasks[i] == (if OwnStep(a, i) then Stepped(d.regs, d.tasks[i], a) else d.tasks[i])
      && RepliesOf(e.sent, i) ==
           RepliesOf(d.sent, i) + (if OwnStep(a, i) && a.Send? then [d.tasks[i].stage.reply] else [])
      && (d.cleared ==> e.cleared)
      && (OwnStep(a, i) ==> e.cleared == d.cleared)
  {
    if a.Send? {
      RepliesAppend(d.sent, Sent(a.task, d.tasks[a.task].stage.reply), i);
    }
    assert RepliesOf(d.sent, i) + [] == RepliesOf(d.sent, i);
    hide RepliesOf;
  }

  lemma OwnTask(config: Registrations, cleared: bool, regs: Registrations, t: Task, replies: seq<Reply>, a: Action)
    requires regs.tools <= config.tools && (regs.permission ==> config.permission)
    requires regs.commands <= config.commands && (regs.elicitation ==> config.elicitation)
    requires !cleared ==> regs == config
    requires TaskInv(config, cleared, t, replies)
    requires match a
      case Lookup(_) => t.stage.Spawned?
      case SecondLookup(_) => t.stage.HandlerSeen?
      case Return(_, o) => t.stage.Calling? && Fits(t.event, o)
      case Send(_) => t.stage.Replying?
      case _ => false
    ensures TaskInv(config, cleared, Stepped(regs, t, a), replies + if a.Send? then [t.stage.reply] else [])
  {
    assert replies + [] == replies;
  }

  lemma {:induction false} ExecInv(config: Registrations, d: Desk, actions: seq<Action>)
    requires Inv(config, d)
    ensures Inv(config, Exec(d, actions))
    decreases |actions|
  {
    if actions != [] {
      NextInv(config, d, actions[0]);
      ExecInv(config, Next(d, actions[0]), actions[1..]);
    }
  }

  // ---------- what every run keeps ----------

  /** In every run a request gets at most one reply; a finished command gets exactly one; and every
      reply is the one its handler's recorded outcome calls for, or the unknown-command error. */
  lemma AtMostOneReply(config: Registrations, actions: seq<Action>, i: nat)
    requires i < |Exec(Init(config), actions).tasks|
    ensures var d := Exec(Init(config), actions);
      var t := d.tasks[i];
      && |RepliesOf(d.sent, i)| <= 1
      && (!t.stage.Finished? ==> RepliesOf(d.sent, i) == [])
      && (t.stage.Finished? ==> Justified(t, RepliesOf(d.sent, i)))
      && (t.stage.Finished? && t.event.CommandExecute? ==> |RepliesOf(d.sent, i)| == 1)
  {
    ExecInv(config, Init(config), actions);
  }

  /** Without a `Disconnect` the replies of a finished request are exactly determined: one when a
      registered handler ran and did not answer `no-result`, one error for an unknown command, and
      none otherwise, in particular for a permission already resolved by a hook. */
  lemma ExactlyOneReply(config: Registrations, actions: seq<Action>, i: nat)
    requires i < |Exec(Init(config), actions).tasks|
    requires Exec(Init(config), actions).tasks[i].stage.Finished?
    requires !Exec(Init(config), actions).cleared
    ensures var d := Exec(Init(config), actions);
      var t := d.tasks[i];
      && AnsweredAs(config, t, RepliesOf(d.sent, i))
      && (|RepliesOf(d.sent, i)| == 1 <==>
            || (Handles(config, t.event) && t.outcome != Some(PermissionReturned(NO_RESULT)))
            || (!Handles(config, t.event) && t.event.CommandExecute?))
  {
    ExecInv(config, Init(config), actions);
  }

  /** When a handler is called, in the words of the request: for a tool or command if one of that name is
      registered, for a permission if there is a handler and no hook has resolved it, for an elicitation if
      there is a handler, and for no other event. */
  ghost predicate CalledFor(config: Registrations, event: SessionEvent) {
    || (event.ToolRequested? && event.toolName in config.tools)
    || (event.PermissionRequested? && event.resolvedByHook != Some(true) && config.permission)
    || (event.CommandExecute? && event.commandName in config.commands)
    || (event.ElicitationRequested? && config.elicitation)
  }

  /** In every run a handler is only called for a request it is for, and without a `Disconnect` it has been
      called for every such request that is finished. In particular no handler is called for a permission that
      a hook has resolved, and nothing is ever sent for it. */
  lemma CalledExactly(config: Registrations, actions: seq<Action>, i: nat)
    requires i < |Exec(Init(config), actions).tasks|
    ensures var d := Exec(Init(config), actions);
      var t := d.tasks[i];
      && (t.outcome.Some? ==> CalledFor(config, t.event))
      && (t.stage.Finished? && !d.cleared ==> (t.outcome.Some? <==> CalledFor(config, t.event)))
      && (t.event.PermissionRequested? && t.event.resolvedByHook == Some(true) ==>
            t.outcome.None? && RepliesOf(d.sent, i) == [])
  {
    ExecInv(config, Init(config), actions);
    var d := Exec(Init(config), actions);
    assert TaskInv(config, d.cleared, d.tasks[i], RepliesOf(d.sent, i));
    CallsAreFor(config, actions, i);
  }

  ghost predicate CallInv(config: Registrations, d: Desk) {
    && d.regs.tools <= config.tools && (d.regs.permission ==> config.permission)
    && d.regs.commands <= config.commands && (d.regs.elicitation ==> config.elicitation)
    && forall i :: 0 <= i < |d.tasks| ==>
         (d.tasks[i].outcome.Some? || d.tasks[i].stage.Calling? || d.tasks[i].stage.HandlerSeen? ==>
            CalledFor(config, d.tasks[i].event))
  }

  lemma NextCall(config: Registrations, d: Desk, a: Action)
    requires CallInv(config, d)
    ensures CallInv(config, Next(d, a))
  {
    hide ReplyTo, Fits;
  }

  lemma {:induction false} ExecCall(config: Registrations, d: Desk, actions: seq<Action>)
    requires CallInv(config, d)
    ensures CallInv(config, Exec(d, actions))
    decreases |actions|
  {
    hide CallInv, Next;
    if actions != [] {
      NextCall(config, d, actions[0]);
      ExecCall(config, Next(d, actions[0]), actions[1..]);
    }
  }

  lemma CallsAreFor(config: Registrations, actions: seq<Action>, i: nat)
    requires i < |Exec(Init(config), actions).tasks|
    ensures var t := Exec(Init(config), actions).tasks[i]; t.outcome.Some? ==> CalledFor(config, t.event)
  {
    ExecCall(config, Init(config), actions);
  }

  /** The replies to a request, spelled out from what its handler did, if one was called. */
  ghost predicate SpelledOut(event: SessionEvent, o: Option<Outcome>, replies: seq<Reply>) {
    && (event.ToolRequested? ==>
          && (o.None? ==> replies == [])
          && (forall r :: o == Some(ToolReturned(r)) ==>
                exists a :: replies == [a] && a.ToolAnswer?
                  && (r.text != "" ==> a.text == r.text) && (r.text == "" ==> a.text == r.printed)
                  && (r.resultType != "" ==> a.resultType == r.resultType)
                  && (r.resultType == "" && r.error != "" ==> a.resultType == "failure")
                  && (r.resultType == "" && r.error == "" ==> a.resultType == "success")
                  && (r.error != "" ==> a.toolError == Some(r.error)) && (r.error == "" ==> a.toolError == None))
          && (forall m :: o == Some(Failed(m)) ==> replies == [ToolFailure(m)])
          && (forall x :: o == Some(Panicked(x)) ==> replies == [ToolFailure("tool panic: " + x)]))
    && (event.PermissionRequested? ==>
          && (o.None? || o == Some(PermissionReturned("no-result")) ==> replies == [])
          && (forall kind :: o == Some(PermissionReturned(kind)) && kind != "no-result" ==> replies == [Decision(kind)])
          && (o.Some? && (o.value.Failed? || o.value.Panicked?) ==>
                replies == [Decision("denied-no-approval-rule-and-could-not-request-from-user")]))
    && (event.CommandExecute? ==>
          && (o.None? ==> replies == [CommandDone(Some("Unknown command: " + event.commandName))])
          && (o == Some(CommandReturned) ==> replies == [CommandDone(None)])
          && (forall m :: o == Some(Failed(m)) ==> replies == [CommandDone(Some(m))]))
    && (event.ElicitationRequested? ==>
          && (o.None? ==> replies == [])
          && (forall action, content :: o == Some(ElicitationReturned(action, content)) ==>
                replies == [ElicitationAnswer(action, content)])
          && (forall m :: o == Some(Failed(m)) ==> replies == [ElicitationAnswer("cancel", map[])]))
    && (event.ToolRequested? || event.PermissionRequested? || event.CommandExecute? || event.ElicitationRequested?
        || replies == [])
  }

  lemma JustifiedIsSpelledOut(t: Task, replies: seq<Reply>)
    requires Justified(t, replies)
    ensures SpelledOut(t.event, t.outcome, replies)
  {
    if t.event.ToolRequested? && t.outcome.Some? && t.outcome.value.ToolReturned? {
      assert replies == [replies[0]] && replies[0].ToolAnswer?;
    }
  }

  /** In every run the replies to a finished request are, word for word, those its handler's outcome calls for,
      or the defaults. */
  lemma RepliesSpelledOut(config: Registrations, actions: seq<Action>, i: nat)
    requires i < |Exec(Init(config), actions).tasks|
    requires Exec(Init(config), actions).tasks[i].stage.Finished?
    ensures var d := Exec(Init(config), actions);
      SpelledOut(d.tasks[i].event, d.tasks[i].outcome, RepliesOf(d.sent, i))
  {
    AtMostOneReply(config, actions, i);
    var d := Exec(Init(config), actions);
    hide SpelledOut;
    JustifiedIsSpelledOut(d.tasks[i], RepliesOf(d.sent, i));
  }

  lemma AnswerIsSpelledOut(regs: Registrations, event: SessionEvent, o: Outcome)
    requires Handles(regs, event) ==> Fits(event, o)
    ensures Handles(regs, event) <==> CalledFor(regs, event)
    ensures SpelledOut(event, if CalledFor(regs, event) then Some(o) else None, ToSeq(Answer(regs, event, o)))
  {
    var called := if Handles(regs, event) then Some(o) else None;
    JustifiedIsSpelledOut(Task(event, Finished, called), ToSeq(Answer(regs, event, o)));
    hide SpelledOut, ReplyTo, Fits;
  }

  /** "approved" is only ever sent for a permission request whose handler returned it. */
  lemma ApprovedOnlyIfReturned(config: Registrations, actions: seq<Action>, k: nat)
    requires k < |Exec(Init(config), actions).sent|
    requires Exec(Init(config), actions).sent[k].reply == Decision(APPROVED)
    ensures var d := Exec(Init(config), actions);
      && d.sent[k].task < |d.tasks|
      && d.tasks[d.sent[k].task].event.PermissionRequested?
      && d.tasks[d.sent[k].task].outcome == Some(PermissionReturned(APPROVED))
  {
    ExecInv(config, Init(config), actions);
    var d := Exec(Init(config), actions);
    SentIsReply(d.sent, k);
    var t := d.tasks[d.sent[k].task];
    assert TaskInv(config, d.cleared, t, RepliesOf(d.sent, d.sent[k].task));
    assert t.stage.Finished?;
  }

  lemma {:induction false} SentIsReply(sent: seq<Sent>, k: nat)
    requires k < |sent|
    ensures sent[k].reply in RepliesOf(sent, sent[k].task)
  {
    if k < |sent| - 1 {
      SentIsReply(sent[..|sent| - 1], k);
    }
  }

  predicate MayCall(d: Desk, i: nat)
    requires i < |d.tasks|
  {
    || d.tasks[i].stage.Calling?
    || d.tasks[i].stage.HandlerSeen?
    || (d.tasks[i].stage.Spawned? && Handles(d.regs, d.tasks[i].event))
  }

  /** No request is stuck: whatever state its goroutine is in, its own steps finish it once the handler,
      if one is called, comes back with some outcome. */
  lemma TaskCanFinish(d: Desk, i: nat, o: Outcome) returns (actions: seq<Action>)
    requires i < |d.tasks|
    requires MayCall(d, i) ==> Fits(d.tasks[i].event, o)
    ensures forall a :: a in actions ==> a in {Lookup(i), SecondLookup(i), Return(i, o), Send(i)}
    ensures var e := Exec(d, actions);
      && |e.tasks| == |d.tasks| && e.tasks[i].stage.Finished? && e.tasks[i].event == d.tasks[i].event
      && e.cleared == d.cleared
    decreases Left(d.tasks[i].stage)
  {
    if d.tasks[i].stage.Finished? {
      actions := [];
    } else {
      var a := match d.tasks[i].stage
        case Spawned => Lookup(i)
        case HandlerSeen => SecondLookup(i)
        case Calling => Return(i, o)
        case Replying(_) => Send(i);
      var rest := TaskCanFinish(Next(d, a), i, o);
      actions := [a] + rest;
      assert actions[1..] == rest;
    }
  }

  function Left(s: Stage): nat {
    match s
    case Spawned => 4
    case HandlerSeen => 3
    case Calling => 2
    case Replying(_) => 1
    case Finished => 0
  }

  /** A goroutine run up to its reply. */
  lemma ReadyToReply(d: Desk, i: nat, o: Outcome)
    requires i < |d.tasks| && d.tasks[i].stage.Spawned?
    requires Handles(d.regs, d.tasks[i].event) ==> Fits(d.tasks[i].event, o)
    requires Answer(d.regs, d.tasks[i].event, o).Some?
    ensures var e := Next(Next(Next(d, Lookup(i)), SecondLookup(i)), Return(i, o));
      && |e.tasks| == |d.tasks| && e.tasks[i].event == d.tasks[i].event
      && e.tasks[i].stage == Replying(Answer(d.regs, d.tasks[i].event, o).value)
  {
  }

  // ---------- one goroutine on its own ----------

  function WholeTask(i: nat, o: Outcome): seq<Action> {
    [Lookup(i), SecondLookup(i), Return(i, o), Send(i)]
  }

  /** What a session with these registrations answers to an event whose handler has this outcome. */
  function Answer(regs: Registrations, event: SessionEvent, o: Outcome): Option<Reply>
    requires Handles(regs, event) ==> Fits(event, o)
  {
    if Handles(regs, event) then ReplyTo(event, o)
    else if event.CommandExecute? then Some(UnknownCommand(event)) else None
  }

  function Numbered(i: nat, reply: Option<Reply>): seq<Sent> {
    match reply
    case None => []
    case Some(r) => [Sent(i, r)]
  }

  /** Run without interruption, a goroutine finishes and sends exactly the answer. */
  lemma WholeTaskAnswers(d: Desk, i: nat, o: Outcome)
    requires i < |d.tasks| && d.tasks[i].stage.Spawned?
    requires Handles(d.regs, d.tasks[i].event) ==> Fits(d.tasks[i].event, o)
    ensures var e := Exec(d, WholeTask(i, o));
      && e.regs == d.regs && e.cleared == d.cleared
      && |e.tasks| == |d.tasks| && e.tasks[i].stage.Finished?
      && e.sent == d.sent + Numbered(i, Answer(d.regs, d.tasks[i].event, o))
  {
    var d1 := Next(d, Lookup(i));
    var d2 := Next(d1, SecondLookup(i));
    var d3 := Next(d2, Return(i, o));
    var d4 := Next(d3, Send(i));
    var s := WholeTask(i, o);
    assert s[1..][1..][1..][1..] == [];
    assert Exec(d, s) == Exec(d1, s[1..]) == Exec(d2, s[1..][1..]) == Exec(d3, s[1..][1..][1..]) == d4;
  }
}
