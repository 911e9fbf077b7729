/** The connection lifecycle of a Go client as a step system. `Start`, `Stop` and `ForceStop` hold one lock;
    three things run without waiting for it: the first half of `ForceStop`, which takes the process handle
    by an atomic swap and kills it, the exit of a process, and close callbacks, which queue for the lock. */
module ClientLifecycle {
  import opened Wrappers

  const MIN_PROTOCOL: int := 2
  const MAX_PROTOCOL: int := 3

  /** Fixed at construction; a client of an external server never uses stdio. */
  datatype Config = Config(external: bool, stdio: bool, sessionFs: bool)

  datatype ConnState = Disconnected | Connecting | Connected | Failed

  /** Who holds the lock and how far it has come. `launch` says whether a failing Start was still starting
      the server; `Held` stages hold a process handle that has been swapped out but not yet killed. */
  datatype Section =
    | Free
    | Launching
    | AwaitingPort
    | Dialing
    | Verifying
    | Providing
    | StartKill(launch: bool)
    | StartHeld(pid: nat, launch: bool)
    | StopKill
    | StopHeld(pid: nat)
    | Closing

  /** A spawned process: how often the client killed it, and the exit error of its own generation. */
  datatype Process = Process(kills: nat, exit: Option<string>)

  /** The client's fields, the lock, and the environment: all processes ever spawned, handles taken by
      `ForceStop` and not yet killed, processes whose handle was overwritten by a later spawn, all
      connections ever made, each with the exit cell it captured, and the connections whose provider was
      registered. `clean` records that the running Start began untracked. */
  datatype Client = Client(
    cfg: Config,
    process: Option<nat>,
    osProcess: Option<nat>,
    conn: bool,
    client: Option<nat>,
    rpc: Option<nat>,
    state: ConnState,
    version: int,
    port: nat,
    errorCell: Option<nat>,
    section: Section,
    clean: bool,
    processes: seq<Process>,
    loose: multiset<nat>,
    superseded: set<nat>,
    connections: seq<Option<nat>>,
    provided: set<nat>)

  datatype Action =
    | StartEnter
    | SpawnFail
    | Spawn
    | PortReported(port: nat)
    | PortFail
    | DialOk
    | DialFail
    | Ping(version: Option<int>)
    | PingFail
    | ProviderOk
    | ProviderFail
    | Swap
    | Kill(ok: bool)
    | StopEnter
    | Finish
    | ForceSwap
    | ForceKill(pid: nat)
    | CloseCallback
    | ProcessExit(pid: nat, error: string)

  function Init(cfg: Config, port: nat): Client {
    Client(cfg, None, None, false, None, None, Disconnected, 0, if cfg.external then port else 0, None, Free, false,
           [], multiset{}, {}, [], {})
  }

  predicate Supported(v: int) {
    MIN_PROTOCOL <= v <= MAX_PROTOCOL
  }

  predicate Enabled(c: Client, a: Action) {
    match a
    case StartEnter => c.section.Free? && c.state != Connected
    case SpawnFail => c.section.Launching?
    case Spawn => c.section.Launching?
    case PortReported(_) => c.section.AwaitingPort?
    case PortFail => c.section.AwaitingPort?
    case DialOk => c.section.Dialing? && (c.cfg.stdio || c.port != 0)
    case DialFail => c.section.Dialing? && !c.cfg.stdio
    case Ping(_) => c.section.Verifying? && c.client.Some?
    case PingFail => c.section.Verifying?
    case ProviderOk => c.section.Providing? && c.client.Some?
    case ProviderFail => c.section.Providing?
    case Swap => c.section.StartKill? || c.section.StopKill?
    case Kill(_) => c.section.StartHeld? || c.section.StopHeld?
    case StopEnter => c.section.Free?
    case Finish => c.section.Closing?
    case ForceSwap => c.osProcess.Some?
    case ForceKill(p) => p in c.loose && p < |c.processes|
    case CloseCallback => c.section.Free?
    case ProcessExit(p, _) => p < |c.processes| && c.processes[p].exit.None?
  }

  /** A new JSON-RPC client and facade over the next connection, which captures the client's exit cell. */
  function Connect(c: Client): Client {
    var k := |c.connections|;
    c.(client := Some(k), rpc := Some(k), connections := c.connections + [c.errorCell])
  }

  /** The processes after one more kill, if there is a handle to kill. */
  function Struck(processes: seq<Process>, p: Option<nat>): seq<Process> {
    if p.Some? && p.value < |processes|
    then processes[p.value := processes[p.value].(kills := processes[p.value].kills + 1)]
    else processes
  }

  function Fail(c: Client): Client {
    c.(state := Failed, section := Free)
  }

  function Next(c: Client, a: Action): Client {
    if !Enabled(c, a) then c else
    match a
    case StartEnter =>
      c.(state := Connecting, section := if c.cfg.external then Dialing else Launching, clean := c.osProcess.None?)
    case SpawnFail =>
      Fail(c.(process := None))
    case Spawn =>
      var p := |c.processes|;
      var s := c.(process := Some(p), osProcess := Some(p), errorCell := Some(p),
                  processes := c.processes + [Process(0, None)],
                  superseded := if c.osProcess.Some? then c.superseded + {c.osProcess.value} else c.superseded);
      if c.cfg.stdio then Connect(s).(section := Dialing) else s.(section := AwaitingPort)
    case PortReported(port) => c.(port := port, section := Dialing)
    case PortFail => c.(section := StartKill(true))
    case DialOk => if c.cfg.stdio then c.(section := Verifying) else Connect(c.(conn := true)).(section := Verifying)
    case DialFail => c.(section := StartKill(false))
    case Ping(v) =>
      if v.None? || !Supported(v.value) then c.(section := StartKill(false))
      else if c.cfg.sessionFs then c.(version := v.value, section := Providing)
      else c.(version := v.value, state := Connected, section := Free)
    case PingFail => c.(section := StartKill(false))
    case ProviderOk => c.(provided := c.provided + {c.client.value}, state := Connected, section := Free)
    case ProviderFail => c.(section := StartKill(false))
    case Swap => (
      match c.osProcess
      case Some(p) =>
        c.(osProcess := None, section := if c.section.StartKill? then StartHeld(p, c.section.launch) else StopHeld(p))
      case None =>
        if c.section.StartKill? then Fail(c.(process := None)) else c.(process := None, section := Closing))
    case Kill(ok) =>
      var k := c.(processes := Struck(c.processes, Some(c.section.pid)));
      if c.section.StartHeld? then Fail(k.(process := if ok || c.section.launch then None else k.process))
      else k.(process := None, section := Closing)
    case StopEnter => c.(section := if c.process.Some? && !c.cfg.external then StopKill else Closing)
    case Finish =>
      c.(process := None, conn := if c.cfg.external then false else c.conn, client := None, rpc := None,
         state := Disconnected, port := if c.cfg.external then c.port else 0, section := Free)
    case ForceSwap => c.(osProcess := None, loose := c.loose + multiset{c.osProcess.value})
    case ForceKill(p) => c.(processes := Struck(c.processes, Some(p)), loose := c.loose - multiset{p})
    case CloseCallback => c.(state := Disconnected)
    case ProcessExit(p, e) => c.(processes := c.processes[p := c.processes[p].(exit := Some(e))])
  }

  function Exec(c: Client, actions: seq<Action>): Client
    decreases |actions|
  {
    if actions == [] then c else Exec(Next(c, actions[0]), actions[1..])
  }

  lemma {:induction false} ExecConcat(c: Client, s: seq<Action>, t: seq<Action>)
    ensures Exec(c, s + t) == Exec(Exec(c, s), t)
    decreases |s|
  {
    if s == [] {
      assert s + t == t;
    } else {
      assert (s + t)[0] == s[0] && (s + t)[1..] == s[1..] + t;
      ExecConcat(Next(c, s[0]), s[1..], t);
    }
  }

  lemma ExecSnoc(c: Client, s: seq<Action>, a: Action)
    ensures Exec(c, s + [a]) == Next(Exec(c, s), a)
  {
    ExecConcat(c, s, [a]);
    assert [a][1..] == [];
  }

  // ---------- the effect of single steps ----------

  lemma StartEffect(c: Client)
    requires c.section.Free? && c.state != Connected
    ensures Next(c, StartEnter) ==
      c.(state := Connecting, section := if c.cfg.external then Dialing else Launching, clean := c.osProcess.None?)
  {
  }

  lemma SpawnFailEffect(c: Client)
    requires c.section.Launching?
    ensures Next(c, SpawnFail) == c.(process := None, state := Failed, section := Free)
  {
  }

  /** Over stdio a spawn connects as well. */
  lemma SpawnEffect(c: Client)
    requires c.section.Launching?
    ensures var p := |c.processes|;
      var k := |c.connections|;
      var s := c.(process := Some(p), osProcess := Some(p), errorCell := Some(p),
                  processes := c.processes + [Process(0, None)],
                  superseded := if c.osProcess.Some? then c.superseded + {c.osProcess.value} else c.superseded);
      Next(c, Spawn) ==
        if c.cfg.stdio
        then s.(client := Some(k), rpc := Some(k), connections := c.connections + [Some(p)], section := Dialing)
        else s.(section := AwaitingPort)
  {
  }

  lemma PortEffect(c: Client, port: nat)
    requires c.section.AwaitingPort?
    ensures Next(c, PortReported(port)) == c.(port := port, section := Dialing)
    ensures Next(c, PortFail) == c.(section := StartKill(true))
  {
  }

  lemma DialEffect(c: Client)
    requires c.section.Dialing?
    ensures !c.cfg.stdio ==> Next(c, DialFail) == c.(section := StartKill(false))
    ensures c.cfg.stdio ==> Next(c, DialOk) == c.(section := Verifying)
    ensures !c.cfg.stdio && c.port != 0 ==>
      Next(c, DialOk) ==
        c.(conn := true, client := Some(|c.connections|), rpc := Some(|c.connections|),
           connections := c.connections + [c.errorCell], section := Verifying)
  {
  }

  lemma PingEffect(c: Client, ping: Result<Option<int>, string>)
    requires c.section.Verifying? && c.client.Some?
    ensures Next(c, PingFail) == c.(section := StartKill(false))
    ensures ping.Ok? && !(ping.value.Some? && Supported(ping.value.value)) ==>
      Next(c, Ping(ping.value)) == c.(section := StartKill(false))
    ensures ping.Ok? && ping.value.Some? && Supported(ping.value.value) ==>
      Next(c, Ping(ping.value)) ==
        if c.cfg.sessionFs then c.(version := ping.value.value, section := Providing)
        else c.(version := ping.value.value, state := Connected, section := Free)
  {
  }

  /** Killing after a failed Start. */
  lemma StartKillEffect(c: Client)
    requires c.section.StartKill?
    ensures Next(c, Swap) ==
      if c.osProcess.Some?
      then c.(osProcess := None, section := StartHeld(c.osProcess.value, c.section.launch))
      else c.(process := None, state := Failed, section := Free)
  {
  }

  lemma StartHeldEffect(c: Client, ok: bool)
    requires c.section.StartHeld? && c.section.pid < |c.processes|
    ensures Next(c, Kill(ok)) ==
      c.(processes := Struck(c.processes, Some(c.section.pid)), state := Failed, section := Free,
         process := if ok || c.section.launch then None else c.process)
  {
  }

  /** Killing in a stop. */
  lemma StopEnterEffect(c: Client)
    requires c.section.Free?
    ensures Next(c, StopEnter) == c.(section := if c.process.Some? && !c.cfg.external then StopKill else Closing)
  {
  }

  lemma StopKillEffect(c: Client)
    requires c.section.StopKill?
    ensures Next(c, Swap) ==
      if c.osProcess.Some? then c.(osProcess := None, section := StopHeld(c.osProcess.value))
      else c.(process := None, section := Closing)
  {
  }

  lemma StopHeldEffect(c: Client, ok: bool)
    requires c.section.StopHeld? && c.section.pid < |c.processes|
    ensures Next(c, Kill(ok)) ==
      c.(processes := Struck(c.processes, Some(c.section.pid)), process := None, section := Closing)
  {
  }

  lemma FinishEffect(c: Client, ok: bool)
    requires c.section.Closing?
    ensures Next(c, Swap) == c && Next(c, Kill(ok)) == c
    ensures Next(c, Finish) ==
      c.(process := None, conn := if c.cfg.external then false else c.conn, client := None, rpc := None,
         state := Disconnected, port := if c.cfg.external then c.port else 0, section := Free)
  {
  }

  lemma ExitEffect(c: Client, p: nat, e: string)
    requires p < |c.processes| && c.processes[p].exit.None?
    ensures Next(c, ProcessExit(p, e)) == c.(processes := c.processes[p := c.processes[p].(exit := Some(e))])
  {
  }

  lemma CloseEffect(c: Client)
    requires c.section.Free?
    ensures Next(c, CloseCallback) == c.(state := Disconnected)
  {
  }

  // ---------- connection invariant ----------

  /** Everything a connected client promises its callers. */
  predicate Ready(c: Client) {
    && c.client.Some? && c.rpc == c.client
    && Supported(c.version)
    && (c.cfg.sessionFs ==> c.client.value in c.provided)
  }

  predicate Starting(s: Section) {
    s.Launching? || s.AwaitingPort? || s.Dialing? || s.Verifying? || s.Providing? || s.StartKill? || s.StartHeld?
  }

  ghost predicate ConnectionInv(c: Client) {
    && (c.cfg.external ==> !c.cfg.stdio && c.osProcess.None? && c.process.None? && c.processes == [])
    && (Starting(c.section) ==> c.state == Connecting)
    && (c.section.Launching? || c.section.AwaitingPort? ==> !c.cfg.external)
    && (c.section.AwaitingPort? ==> !c.cfg.stdio)
    && (c.section.Dialing? && c.cfg.stdio ==> c.client.Some? && c.rpc == c.client)
    && (c.section.Verifying? || c.section.Providing? ==> c.client.Some? && c.rpc == c.client)
    && (c.section.Providing? ==> Supported(c.version))
    && (c.section.Free? && c.state == Connected ==> Ready(c))
  }

  predicate LaunchStep(a: Action) {
    a.StartEnter? || a.SpawnFail? || a.Spawn? || a.PortReported? || a.PortFail? || a.DialOk? || a.DialFail?
  }

  predicate HandshakeStep(a: Action) {
    a.Ping? || a.PingFail? || a.ProviderOk? || a.ProviderFail?
  }

  predicate StopStep(a: Action) {
    a.Swap? || a.Kill? || a.StopEnter? || a.Finish?
  }

  /** The steps of others than the lock holder. */
  predicate OutsideStep(a: Action) {
    a.ForceSwap? || a.ForceKill? || a.CloseCallback? || a.ProcessExit?
  }

  lemma NextConnectionLaunch(c: Client, a: Action)
    requires ConnectionInv(c) && LaunchStep(a)
    ensures ConnectionInv(Next(c, a))
  {
  }

  lemma NextConnectionHandshake(c: Client, a: Action)
    requires ConnectionInv(c) && HandshakeStep(a)
    ensures ConnectionInv(Next(c, a))
  {
  }

  lemma NextConnectionStop(c: Client, a: Action)
    requires ConnectionInv(c) && StopStep(a)
    ensures ConnectionInv(Next(c, a))
  {
  }

  lemma NextConnectionOutside(c: Client, a: Action)
    requires ConnectionInv(c) && OutsideStep(a)
    ensures ConnectionInv(Next(c, a))
  {
  }

  lemma NextConnection(c: Client, a: Action)
    requires ConnectionInv(c)
    ensures ConnectionInv(Next(c, a))
  {
    hide ConnectionInv, Next;
    if LaunchStep(a) {
      NextConnectionLaunch(c, a);
    } else if HandshakeStep(a) {
      NextConnectionHandshake(c, a);
    } else if StopStep(a) {
      NextConnectionStop(c, a);
    } else {
      NextConnectionOutside(c, a);
    }
  }

  // ---------- process handles ----------

  function One(b: bool): nat {
    if b then 1 else 0
  }

  predicate Holds(s: Section, p: nat) {
    (s.StartHeld? || s.StopHeld?) && s.pid == p
  }

  /** Where the one right to kill process `p` is: used, with `ForceStop`, with the lock holder, still in the
      client, or lost when a later spawn overwrote it. */
  predicate Balanced(c: Client, p: nat)
    requires p < |c.processes|
  {
    c.processes[p].kills + c.loose[p] + One(Holds(c.section, p)) + One(c.osProcess == Some(p))
    + One(p in c.superseded) == 1
  }

  ghost predicate HandleInv(c: Client) {
    && (c.osProcess.Some? ==> c.osProcess.value < |c.processes|)
    && (c.section.StartHeld? || c.section.StopHeld? ==> c.section.pid < |c.processes|)
    && (forall p :: p in c.loose || p in c.superseded ==> p < |c.processes|)
    && (forall p: nat :: p < |c.processes| ==> Balanced(c, p))
  }

  predicate MovesHandles(a: Action) {
    a.Spawn? || a.Swap? || a.Kill? || a.ForceSwap? || a.ForceKill?
  }

  lemma OtherStepsKeepHandles(c: Client, a: Action)
    requires !MovesHandles(a)
    ensures var d := Next(c, a);
      && d.osProcess == c.osProcess && d.loose == c.loose && d.superseded == c.superseded
      && |d.processes| == |c.processes|
      && (forall p :: 0 <= p < |c.processes| ==> d.processes[p].kills == c.processes[p].kills)
      && (c.section.StartHeld? || c.section.StopHeld? ==> d.section == c.section)
      && !(d.section.StartHeld? || d.section.StopHeld?) == !(c.section.StartHeld? || c.section.StopHeld?)
  {
  }

  lemma SpawnHandles(c: Client)
    requires HandleInv(c)
    ensures HandleInv(Next(c, Spawn))
  {
    var d := Next(c, Spawn);
    forall p: nat | p < |d.processes| ensures Balanced(d, p) {
      if p < |c.processes| {
        assert Balanced(c, p);
      } else {
        assert p !in c.loose && p !in c.superseded;
      }
    }
  }

  lemma SwapHandles(c: Client, a: Action)
    requires HandleInv(c) && (a.Swap? || a.ForceSwap?)
    ensures HandleInv(Next(c, a))
  {
    var d := Next(c, a);
    forall p: nat | p < |d.processes| ensures Balanced(d, p) {
      assert Balanced(c, p);
    }
  }

  lemma KillHandles(c: Client, ok: bool)
    requires HandleInv(c)
    ensures HandleInv(Next(c, Kill(ok)))
  {
    var d := Next(c, Kill(ok));
    if c.section.StartHeld? {
      StartHeldEffect(c, ok);
    } else if c.section.StopHeld? {
      StopHeldEffect(c, ok);
    }
    assert Enabled(c, Kill(ok)) || d == c;
    hide Next;
    forall p: nat | p < |d.processes| ensures Balanced(d, p) {
      assert Balanced(c, p);
    }
  }

  lemma ForceKillHandles(c: Client, q: nat)
    requires HandleInv(c)
    ensures HandleInv(Next(c, ForceKill(q)))
  {
    var d := Next(c, ForceKill(q));
    assert d == if Enabled(c, ForceKill(q))
                then c.(processes := Struck(c.processes, Some(q)), loose := c.loose - multiset{q}) else c;
    hide Next;
    forall p: nat | p < |d.processes| ensures Balanced(d, p) {
      assert Balanced(c, p);
    }
  }

  lemma OtherStepsBalance(c: Client, d: Client)
    requires HandleInv(c)
    requires d.osProcess == c.osProcess && d.loose == c.loose && d.superseded == c.superseded
    requires |d.processes| == |c.processes|
    requires forall p :: 0 <= p < |c.processes| ==> d.processes[p].kills == c.processes[p].kills
    requires c.section.StartHeld? || c.section.StopHeld? ==> d.section == c.section
    requires !(d.section.StartHeld? || d.section.StopHeld?) == !(c.section.StartHeld? || c.section.StopHeld?)
    ensures HandleInv(d)
  {
    forall p: nat | p < |d.processes| ensures Balanced(d, p) {
      assert Balanced(c, p);
    }
  }

  lemma NextHandles(c: Client, a: Action)
    requires HandleInv(c)
    ensures HandleInv(Next(c, a))
  {
    hide HandleInv, Next;
    match a {
      case Spawn => SpawnHandles(c);
      case Swap => SwapHandles(c, a);
      case ForceSwap => SwapHandles(c, a);
      case Kill(ok) => KillHandles(c, ok);
      case ForceKill(p) => ForceKillHandles(c, p);
      case _ =>
        OtherStepsKeepHandles(c, a);
        OtherStepsBalance(c, Next(c, a));
    }
  }

  /** A Start that began untracked and has not spawned yet still tracks nothing, and neither does the
      client while the lock holder has a handle in hand. */
  predicate StartInv(c: Client) {
    && (c.section.Launching? && c.clean ==> c.osProcess.None?)
    && (c.section.StartHeld? || c.section.StopHeld? ==> c.osProcess.None?)
  }

  /** From the spawn on until it fails or stops, a client of its own server has its process field set. */
  predicate ProcessInv(c: Client) {
    && (c.section.AwaitingPort? || c.section.StartHeld? || c.section.StopKill? || c.section.StopHeld? ==>
          c.process.Some?)
    && (!c.cfg.external
        && (c.section.Dialing? || c.section.Verifying? || c.section.Providing? || c.section.StartKill?) ==>
          c.process.Some?)
  }

  lemma NextProcess(c: Client, a: Action)
    requires ConnectionInv(c) && ProcessInv(c)
    ensures ProcessInv(Next(c, a))
  {
  }

  ghost predicate Inv(c: Client) {
    ConnectionInv(c) && HandleInv(c) && StartInv(c) && ProcessInv(c)
  }

  lemma NextStart(c: Client, a: Action)
    requires StartInv(c)
    ensures StartInv(Next(c, a))
  {
  }

  lemma {:induction false} ExecInv(c: Client, actions: seq<Action>)
    requires Inv(c)
    ensures Inv(Exec(c, actions))
    decreases |actions|
  {
    hide ConnectionInv, HandleInv, StartInv, ProcessInv, Next;
    if actions != [] {
      NextProcess(c, actions[0]);
      NextConnection(c, actions[0]);
      NextHandles(c, actions[0]);
      NextStart(c, actions[0]);
      ExecInv(Next(c, actions[0]), actions[1..]);
    }
  }

  // ---------- what every run keeps ----------

  /** In every run, whenever the lock is free and the client says it is connected, it has a JSON-RPC client
      and a facade on the same connection, negotiated a supported version, and registered its file system
      provider on that connection if one is configured. */
  lemma ConnectedMeansReady(cfg: Config, port: nat, actions: seq<Action>)
    requires cfg.external ==> !cfg.stdio
    ensures var c := Exec(Init(cfg, port), actions);
      c.section.Free? && c.state == Connected ==> Ready(c)
  {
    ExecInv(Init(cfg, port), actions);
  }

  /** In every run the right to kill a process is in exactly one place, so no process is killed twice, and
      one is never killed only while its handle is tracked, in hand, or was overwritten by a later spawn. */
  lemma KilledAtMostOnce(cfg: Config, port: nat, actions: seq<Action>, p: nat)
    requires cfg.external ==> !cfg.stdio
    requires p < |Exec(Init(cfg, port), actions).processes|
    ensures var c := Exec(Init(cfg, port), actions);
      Balanced(c, p) && c.processes[p].kills <= 1
  {
    ExecInv(Init(cfg, port), actions);
    assert Balanced(Exec(Init(cfg, port), actions), p);
  }

  /** In every run, a step by which a Start fails leaves a process tracked if and only if the spawn failed and
      an older process was tracked before, so never when the Start began untracked. Every other process whose
      handle was not overwritten has been killed, or is about to be by a racing `ForceStop`: the failed Start
      leaves no orphan. The process field stays set if and only if killing reported an error after the server
      had come up. */
  lemma FailedStartLeavesNothingTracked(cfg: Config, port: nat, actions: seq<Action>, a: Action)
    requires cfg.external ==> !cfg.stdio
    requires Starting(Exec(Init(cfg, port), actions).section)
    requires var d := Next(Exec(Init(cfg, port), actions), a); d.section.Free? && d.state == Failed
    ensures var c := Exec(Init(cfg, port), actions);
      var d := Next(c, a);
      && (d.osProcess.Some? <==> a.SpawnFail? && c.osProcess.Some?)
      && (c.clean ==> d.osProcess.None?)
      && (forall p: nat :: p < |d.processes| && p !in d.superseded && d.osProcess != Some(p) ==>
            d.processes[p].kills + d.loose[p] == 1)
      && (d.process.Some? <==> a == Kill(false) && c.section.StartHeld? && !c.section.launch)
  {
    var c := Exec(Init(cfg, port), actions);
    var d := Next(c, a);
    assert HandleInv(d) && Inv(c) by {
      ExecInv(Init(cfg, port), actions);
      NextHandles(c, a);
    }
    FailingStep(c, a);
    hide Next, Exec, ConnectionInv, Starting, StartInv, ProcessInv;
    forall p: nat | p < |d.processes| && p !in d.superseded && d.osProcess != Some(p)
      ensures d.processes[p].kills + d.loose[p] == 1
    {
      assert Balanced(d, p);
    }
  }

  /** The steps that end a failing Start: the spawn fails, there is nothing to kill, or the handle in hand is
      killed. */
  lemma FailingStep(c: Client, a: Action)
    requires Starting(c.section) && StartInv(c) && ProcessInv(c) && c.state != Failed
    requires Next(c, a).section.Free? && Next(c, a).state == Failed
    ensures Next(c, a).osProcess.Some? <==> a.SpawnFail? && c.osProcess.Some?
    ensures c.clean ==> Next(c, a).osProcess.None?
    ensures Next(c, a).process.Some? <==> a == Kill(false) && c.section.StartHeld? && !c.section.launch
  {
  }

  predicate TouchesProcesses(a: Action) {
    a.Spawn? || a.Kill? || a.ForceKill? || a.ProcessExit?
  }

  lemma OtherStepsKeepProcesses(c: Client, a: Action)
    requires !TouchesProcesses(a)
    ensures Next(c, a).processes == c.processes && Next(c, a).errorCell == c.errorCell
  {
  }

  lemma ProcessesEffect(c: Client, a: Action)
    ensures Next(c, a).processes ==
      if !Enabled(c, a) then c.processes else
      match a
      case Spawn => c.processes + [Process(0, None)]
      case Kill(_) => Struck(c.processes, Some(c.section.pid))
      case ForceKill(p) => Struck(c.processes, Some(p))
      case ProcessExit(p, e) => c.processes[p := c.processes[p].(exit := Some(e))]
      case _ => c.processes
  {
    if !TouchesProcesses(a) {
      OtherStepsKeepProcesses(c, a);
      hide Next;
    }
  }

  lemma NextExit(c: Client, a: Action, q: nat)
    requires q < |c.processes|
    requires c.processes[q].exit.Some? || !(a.ProcessExit? && a.pid == q)
    ensures q < |Next(c, a).processes| && Next(c, a).processes[q].exit == c.processes[q].exit
  {
    ProcessesEffect(c, a);
    hide Next;
  }

  /** The exit error of a process is written once, by that process's own exit: a run without an exit of `q`
      leaves it alone whatever other generations do, and once written it stays. */
  lemma {:induction false} ExitErrorIsOwn(c: Client, actions: seq<Action>, q: nat)
    requires q < |c.processes|
    requires c.processes[q].exit.Some?
      || (forall i :: 0 <= i < |actions| && actions[i].ProcessExit? ==> actions[i].pid != q)
    ensures q < |Exec(c, actions).processes| && Exec(c, actions).processes[q].exit == c.processes[q].exit
    decreases |actions|
  {
    if actions != [] {
      NextExit(c, actions[0], q);
      ExitErrorIsOwn(Next(c, actions[0]), actions[1..], q);
    }
  }

  // ---------- which exit a connection reports ----------

  /** The exit error in a captured cell; a connection to an external server has none. */
  function CellError(c: Client, cell: Option<nat>): Option<string> {
    if cell.Some? && cell.value < |c.processes| then c.processes[cell.value].exit else None
  }

  /** What requests on connection `k` report when the process is gone. */
  function ConnectionError(c: Client, k: nat): Option<string>
    requires k < |c.connections|
  {
    CellError(c, c.connections[k])
  }

  /** What requests on the client's own connection report. */
  function ReportedError(c: Client): Option<string> {
    if c.client.Some? && c.client.value < |c.connections| then ConnectionError(c, c.client.value) else None
  }

  /** The cell that a connection made now would capture: that of the newest process, if there is any. */
  function NewestCell(c: Client): Option<nat> {
    if c.processes == [] then None else Some(|c.processes| - 1)
  }

  /** The client's connection captured the cell of the newest process. */
  predicate ReportsNewest(c: Client) {
    c.client.Some? && c.client.value < |c.connections| && c.connections[c.client.value] == NewestCell(c)
  }

  ghost predicate LinkInv(c: Client) {
    && c.errorCell == NewestCell(c)
    && (c.client.Some? ==> c.client == Some(|c.connections| - 1) && c.connections != [])
    && (forall k :: 0 <= k < |c.connections| && c.connections[k].Some? ==> c.connections[k].value < |c.processes|)
    && ((c.section.Dialing? && c.cfg.stdio) || c.section.Verifying? || c.section.Providing? ==> ReportsNewest(c))
    && (c.section.Free? && c.state == Connected ==> ReportsNewest(c))
  }

  /** What the steps that neither spawn nor connect leave alone. */
  lemma OtherStepsKeepLinks(c: Client, a: Action)
    requires !a.Spawn? && !a.DialOk?
    ensures var d := Next(c, a);
      && d.connections == c.connections && d.errorCell == c.errorCell && |d.processes| == |c.processes|
      && (d.client == c.client || d.client.None?)
  {
    if !TouchesProcesses(a) {
      OtherStepsKeepProcesses(c, a);
    }
  }

  lemma NextLinkSpawn(c: Client)
    requires ConnectionInv(c) && LinkInv(c)
    ensures LinkInv(Next(c, Spawn))
  {
  }

  lemma NextLinkDial(c: Client)
    requires ConnectionInv(c) && LinkInv(c)
    ensures LinkInv(Next(c, DialOk))
  {
  }

  /** A step enters a section that has a current connection only from one that has. */
  lemma CurrentStays(c: Client, a: Action)
    requires ConnectionInv(c) && LinkInv(c) && !a.Spawn? && !a.DialOk?
    ensures var d := Next(c, a);
      ((d.section.Dialing? && d.cfg.stdio) || d.section.Verifying? || d.section.Providing?
        || (d.section.Free? && d.state == Connected)) ==> ReportsNewest(c) && d.client == c.client
  {
    hide NewestCell;
  }

  lemma NextLink(c: Client, a: Action)
    requires ConnectionInv(c) && LinkInv(c)
    ensures LinkInv(Next(c, a))
  {
    if a.Spawn? {
      NextLinkSpawn(c);
    } else if a.DialOk? {
      NextLinkDial(c);
    } else {
      OtherStepsKeepLinks(c, a);
      CurrentStays(c, a);
      hide Next;
    }
  }

  lemma {:induction false} ExecLink(c: Client, actions: seq<Action>)
    requires ConnectionInv(c) && LinkInv(c)
    ensures ConnectionInv(Exec(c, actions)) && LinkInv(Exec(c, actions))
    decreases |actions|
  {
    hide ConnectionInv, LinkInv, Next;
    if actions != [] {
      NextConnection(c, actions[0]);
      NextLink(c, actions[0]);
      ExecLink(Next(c, actions[0]), actions[1..]);
    }
  }

  /** A step makes at most one connection, which captures the cell of the newest process. */
  lemma NewConnection(c: Client, a: Action)
    requires LinkInv(c)
    ensures var d := Next(c, a);
      && |c.processes| <= |d.processes|
      && (d.connections == c.connections || d.connections == c.connections + [NewestCell(d)])
  {
    if !a.Spawn? && !a.DialOk? {
      OtherStepsKeepLinks(c, a);
      hide Next;
    }
  }

  /** Along a run the connections made so far keep their cells. */
  lemma {:induction false} ConnectionsGrow(c: Client, actions: seq<Action>)
    requires ConnectionInv(c) && LinkInv(c)
    ensures var d := Exec(c, actions);
      c.connections <= d.connections && |c.processes| <= |d.processes|
    decreases |actions|
  {
    if actions != [] {
      NewConnection(c, actions[0]);
      NextConnection(c, actions[0]);
      NextLink(c, actions[0]);
      hide Next, ConnectionInv, LinkInv;
      ConnectionsGrow(Next(c, actions[0]), actions[1..]);
    }
  }

  lemma ExitShows(c: Client, cell: Option<nat>, p: nat, e: string)
    ensures CellError(Next(c, ProcessExit(p, e)), cell) ==
      if cell == Some(p) && p < |c.processes| && c.processes[p].exit.None? then Some(e) else CellError(c, cell)
  {
  }

  /** In every run a connection, once made, reports the exit of one process for good: the one that was the
      newest when it was made. Only that process's exit shows on it, whatever is spawned or exits later, and
      once shown it stays. */
  lemma ConnectionReportsItsOwn(
      cfg: Config, port: nat, before: seq<Action>, more: seq<Action>, k: nat, p: nat, e: string)
    requires cfg.external ==> !cfg.stdio
    requires k < |Exec(Init(cfg, port), before).connections|
    ensures var c := Exec(Init(cfg, port), before);
      var d := Exec(c, more);
      && k < |d.connections| && d.connections[k] == c.connections[k]
      && (d.connections[k].Some? ==> d.connections[k].value < |c.processes|)
      && (ConnectionError(c, k).Some? ==> ConnectionError(d, k) == ConnectionError(c, k))
      && CellError(Next(d, ProcessExit(p, e)), d.connections[k]) ==
           if c.connections[k] == Some(p) && ConnectionError(d, k).None? then Some(e) else ConnectionError(d, k)
  {
    ExecLink(Init(cfg, port), before);
    var c := Exec(Init(cfg, port), before);
    var d := Exec(c, more);
    ConnectionsGrow(c, more);
    ExitShows(d, c.connections[k], p, e);
    if ConnectionError(c, k).Some? {
      ExitErrorIsOwn(c, more, c.connections[k].value);
    }
  }

  /** In every run, while the lock is free and the client is connected, the exit of a process shows in what
      the client reports if and only if it is the newest one. */
  lemma ReportedExitIsNewest(cfg: Config, port: nat, actions: seq<Action>, p: nat, e: string)
    requires cfg.external ==> !cfg.stdio
    requires Exec(Init(cfg, port), actions).section.Free? && Exec(Init(cfg, port), actions).state == Connected
    ensures var c := Exec(Init(cfg, port), actions);
      && ReportsNewest(c)
      && ReportedError(Next(c, ProcessExit(p, e))) ==
           if p + 1 == |c.processes| && c.processes[p].exit.None? then Some(e) else ReportedError(c)
  {
    ExecLink(Init(cfg, port), actions);
    var c := Exec(Init(cfg, port), actions);
    ExitShows(c, c.connections[c.client.value], p, e);
    OtherStepsKeepLinks(c, ProcessExit(p, e));
    assert Next(c, ProcessExit(p, e)).client == c.client;
    hide Exec, Next;
  }

  /** A connection was made since the last process was spawned: over stdio by the spawn itself, over TCP by
      a dial that worked. */
  predicate ConnectedSinceSpawn(cfg: Config, port: nat, actions: seq<Action>) {
    if actions == [] then false
    else
      var front, a := actions[..|actions| - 1], actions[|actions| - 1];
      var c := Exec(Init(cfg, port), front);
      if Enabled(c, a) && a.Spawn? then cfg.stdio
      else (Enabled(c, a) && a.DialOk?) || ConnectedSinceSpawn(cfg, port, front)
  }

  /** In every state of every run, a client that has a connection reports its newest process if and only if a
      connection was made since that was spawned. Until the dial after a restart has worked, and after a
      restart that fails earlier, it still reports the process of the connection before. A client of an
      external server has no process to report. */
  lemma {:induction false} ReportsNewestExactly(cfg: Config, port: nat, actions: seq<Action>)
    requires cfg.external ==> !cfg.stdio
    requires Exec(Init(cfg, port), actions).client.Some?
    ensures ReportsNewest(Exec(Init(cfg, port), actions)) <==> cfg.external || ConnectedSinceSpawn(cfg, port, actions)
    decreases |actions|
  {
    if actions != [] {
      var front, a := actions[..|actions| - 1], actions[|actions| - 1];
      var c := Exec(Init(cfg, port), front);
      assert actions == front + [a];
      ExecSnoc(Init(cfg, port), front, a);
      ExecLink(Init(cfg, port), front);
      ConfigStays(Init(cfg, port), front);
      assert ConnectedSinceSpawn(cfg, port, actions) <==>
        if Enabled(c, a) && a.Spawn? then cfg.stdio
        else (Enabled(c, a) && a.DialOk?) || ConnectedSinceSpawn(cfg, port, front);
      hide Exec, ConnectedSinceSpawn;
      if c.client.Some? {
        ReportsNewestExactly(cfg, port, front);
      }
      ReportsNewestStep(c, a, cfg.external || ConnectedSinceSpawn(cfg, port, front));
    }
  }

  lemma ReportsNewestStep(c: Client, a: Action, was: bool)
    requires ConnectionInv(c) && LinkInv(c) && (c.cfg.external ==> was)
    requires c.client.Some? ==> (ReportsNewest(c) <==> was)
    ensures var d := Next(c, a);
      d.client.Some? ==> (ReportsNewest(d) <==>
        if Enabled(c, a) && a.Spawn? then c.cfg.stdio else (Enabled(c, a) && a.DialOk?) || was)
  {
    if Enabled(c, a) && a.Spawn? {
      ReportsNewestSpawn(c);
    } else if Enabled(c, a) && a.DialOk? {
      NextLinkDial(c);
      DialLeadsToVerifying(c);
    } else if Enabled(c, a) {
      OtherStepsKeepLinks(c, a);
      hide Next;
    }
  }

  lemma ReportsNewestSpawn(c: Client)
    requires ConnectionInv(c) && LinkInv(c) && c.section.Launching?
    ensures var d := Next(c, Spawn); d.client.Some? ==> (ReportsNewest(d) <==> c.cfg.stdio) && !c.cfg.external
  {
  }

  lemma DialLeadsToVerifying(c: Client)
    requires Enabled(c, DialOk)
    ensures Next(c, DialOk).section.Verifying?
  {
  }

  lemma NextConfig(c: Client, a: Action)
    ensures Next(c, a).cfg == c.cfg
  {
  }

  lemma {:induction false} ConfigStays(c: Client, actions: seq<Action>)
    ensures Exec(c, actions).cfg == c.cfg
    decreases |actions|
  {
    hide Next;
    if actions != [] {
      NextConfig(c, actions[0]);
      ConfigStays(Next(c, actions[0]), actions[1..]);
    }
  }

  /** One more step of a concrete run. */
  lemma Extend(i: Client, s: seq<Action>, c: Client, a: Action) returns (t: seq<Action>, d: Client)
    requires Exec(i, s) == c
    ensures t == s + [a] && d == Next(c, a) && Exec(i, t) == d
  {
    ExecSnoc(i, s, a);
    t, d := s + [a], Next(c, a);
  }

  /** A restart over TCP that fails before the dial leaves the old connection in place: with the lock free,
      the client reports the exit of process 0 and never that of process 1. */
  lemma StaleReport() returns (s: seq<Action>)
    ensures var c := Exec(Init(Config(false, false, false), 0), s);
      && c.section.Free? && c.client == Some(0) && |c.processes| == 2 && !ReportsNewest(c)
      && ReportedError(Next(c, ProcessExit(0, "gone"))) == Some("gone")
      && ReportedError(Next(c, ProcessExit(1, "gone"))) == None
  {
    hide Exec, Next;
    var i := Init(Config(false, false, false), 0);
    var c := i;
    s := [];
    assert Exec(i, s) == c by { ExecNothing(i); }
    StartEffect(c);
    s, c := Extend(i, s, c, StartEnter);
    SpawnEffect(c);
    s, c := Extend(i, s, c, Spawn);
    PortEffect(c, 7);
    s, c := Extend(i, s, c, PortReported(7));
    DialEffect(c);
    s, c := Extend(i, s, c, DialOk);
    PingEffect(c, Ok(Some(3)));
    s, c := Extend(i, s, c, Ping(Some(3)));
    CloseEffect(c);
    s, c := Extend(i, s, c, CloseCallback);
    StartEffect(c);
    s, c := Extend(i, s, c, StartEnter);
    SpawnEffect(c);
    s, c := Extend(i, s, c, Spawn);
    PortEffect(c, 0);
    s, c := Extend(i, s, c, PortFail);
    StartKillEffect(c);
    s, c := Extend(i, s, c, Swap);
    StartHeldEffect(c, true);
    s, c := Extend(i, s, c, Kill(true));
    ExitEffect(c, 0, "gone");
    ExitEffect(c, 1, "gone");
  }

  lemma ExecNothing(c: Client)
    ensures Exec(c, []) == c
  {
  }

  /** A Start whose ping fails and whose kill reports an error ends with the process field set. */
  lemma FailedStartKeepsProcess() returns (s: seq<Action>)
    ensures var c := Exec(Init(Config(false, true, false), 0), s);
      && c.section.Free? && c.state == Failed && c.process == Some(0) && c.osProcess == None
      && c.processes == [Process(1, None)]
  {
    hide Exec, Next;
    var i := Init(Config(false, true, false), 0);
    var c := i;
    s := [];
    assert Exec(i, s) == c by { ExecNothing(i); }
    StartEffect(c);
    s, c := Extend(i, s, c, StartEnter);
    SpawnEffect(c);
    s, c := Extend(i, s, c, Spawn);
    DialEffect(c);
    s, c := Extend(i, s, c, DialOk);
    PingEffect(c, Err(""));
    s, c := Extend(i, s, c, PingFail);
    StartKillEffect(c);
    s, c := Extend(i, s, c, Swap);
    StartHeldEffect(c, false);
    s, c := Extend(i, s, c, Kill(false));
  }

  /** A client after `Stop`. */
  predicate Quiet(c: Client) {
    && c.section.Free? && c.process.None? && c.client.None? && c.rpc.None? && c.state == Disconnected
    && (if c.cfg.external then !c.conn else c.port == 0)
  }

  /** Releasing the lock at the end of `Stop` or `ForceStop` leaves the client quiet, and stopping a quiet
      client changes nothing at all. */
  lemma SecondStopChangesNothing(c: Client)
    ensures c.section.Closing? ==> Quiet(Next(c, Finish))
    ensures Quiet(c) ==> Exec(c, [StopEnter, Finish]) == c
  {
    var s := [StopEnter, Finish];
    assert s[1..] == [Finish] && s[1..][1..] == [];
    assert Exec(c, s) == Exec(Next(c, StopEnter), s[1..]);
    assert Exec(Next(c, StopEnter), s[1..]) == Exec(Next(Next(c, StopEnter), Finish), s[1..][1..]);
  }

  // ---------- what a failure and a lost handle go back to ----------

  /** A step by which a Start can fail: over stdio nothing is dialed, and without a session file system no
      provider is registered. */
  predicate Cause(cfg: Config, a: Action) {
    || a.SpawnFail? || a.PingFail?
    || (a.Ping? && (a.version.None? || a.version.value < 2 || a.version.value > 3))
    || (cfg.sessionFs && a.ProviderFail?)
    || (!cfg.stdio && (a.PortFail? || a.DialFail?))
  }

  predicate CauseInv(c: Client, caused: bool) {
    && (c.state.Failed? || c.section.StartKill? || c.section.StartHeld? ==> caused)
    && (c.section.AwaitingPort? ==> !c.cfg.stdio)
    && (c.section.Providing? ==> c.cfg.sessionFs)
  }

  lemma NextCauseLaunch(c: Client, a: Action, caused: bool)
    requires CauseInv(c, caused) && LaunchStep(a)
    ensures CauseInv(Next(c, a), caused || Cause(c.cfg, a))
  {
    hide Struck;
  }

  lemma NextCauseHandshake(c: Client, a: Action, caused: bool)
    requires CauseInv(c, caused) && HandshakeStep(a)
    ensures CauseInv(Next(c, a), caused || Cause(c.cfg, a))
  {
    hide Struck;
  }

  lemma NextCauseStop(c: Client, a: Action, caused: bool)
    requires CauseInv(c, caused) && StopStep(a)
    ensures CauseInv(Next(c, a), caused || Cause(c.cfg, a))
  {
    hide Struck;
  }

  lemma NextCauseOutside(c: Client, a: Action, caused: bool)
    requires CauseInv(c, caused) && OutsideStep(a)
    ensures CauseInv(Next(c, a), caused || Cause(c.cfg, a))
  {
    hide Struck;
  }

  lemma NextCause(c: Client, a: Action, caused: bool)
    requires CauseInv(c, caused)
    ensures CauseInv(Next(c, a), caused || Cause(c.cfg, a))
  {
    hide CauseInv, Next, Cause;
    if LaunchStep(a) {
      NextCauseLaunch(c, a, caused);
    } else if HandshakeStep(a) {
      NextCauseHandshake(c, a, caused);
    } else if StopStep(a) {
      NextCauseStop(c, a, caused);
    } else {
      NextCauseOutside(c, a, caused);
    }
  }

  lemma {:induction false} FailureHasCause(c: Client, actions: seq<Action>, caused: bool)
    requires CauseInv(c, caused)
    ensures CauseInv(Exec(c, actions), caused || exists n :: 0 <= n < |actions| && Cause(c.cfg, actions[n]))
    decreases |actions|
  {
    if actions != [] {
      var a, rest := actions[0], actions[1..];
      NextCause(c, a, caused);
      NextConfig(c, a);
      FailureHasCause(Next(c, a), rest, caused || Cause(c.cfg, a));
      hide Next, CauseInv;
      if n :| 0 <= n < |rest| && Cause(c.cfg, rest[n]) {
        assert actions[n + 1] == rest[n];
      }
    }
  }

  /** In every run a client is in its failed state only after a step by which a Start of its kind can fail. */
  lemma FailedOnlyForCause(cfg: Config, port: nat, actions: seq<Action>)
    requires Exec(Init(cfg, port), actions).state.Failed?
    ensures exists n :: 0 <= n < |actions| && Cause(cfg, actions[n])
  {
    FailureHasCause(Init(cfg, port), actions, false);
    hide Exec, Cause;
  }

  /** At some point of the run a Start began on a client that tracked `p` and was not connected. */
  ghost predicate StartedOver(c: Client, actions: seq<Action>, p: nat) {
    exists n :: 0 <= n < |actions| && StartedOverAt(c, actions, p, n)
  }

  predicate StartedOverAt(c: Client, actions: seq<Action>, p: nat, n: nat)
    requires n < |actions|
  {
    && actions[n].StartEnter?
    && var d := Exec(c, actions[..n]);
       d.section.Free? && d.state != Connected && d.osProcess == Some(p)
  }

  lemma StartedOverStays(c: Client, front: seq<Action>, a: Action, p: nat)
    requires StartedOver(c, front, p)
    ensures StartedOver(c, front + [a], p)
  {
    hide Exec;
    var n :| 0 <= n < |front| && StartedOverAt(c, front, p, n);
    assert (front + [a])[..n] == front[..n];
    assert StartedOverAt(c, front + [a], p, n);
  }

  /** Only entering a Start brings a tracked handle before a spawn, and only a spawn overwrites one. */
  lemma NextSuperseded(c: Client, a: Action, p: nat)
    ensures var d := Next(c, a);
      && (d.section.Launching? && d.osProcess == Some(p) ==>
            || (c.section.Launching? && c.osProcess == Some(p))
            || (a.StartEnter? && c.section.Free? && c.state != Connected && c.osProcess == Some(p)))
      && (p in d.superseded ==> p in c.superseded || (c.section.Launching? && c.osProcess == Some(p)))
  {
    hide Struck;
  }

  /** In every run a handle is overwritten only by a Start that found its process tracked and the client not
      connected: starting a connected client never loses a process. */
  lemma {:induction false} LostOnlyByRestart(cfg: Config, port: nat, actions: seq<Action>, p: nat)
    ensures var c := Exec(Init(cfg, port), actions);
      p in c.superseded || (c.section.Launching? && c.osProcess == Some(p)) ==>
        StartedOver(Init(cfg, port), actions, p)
    decreases |actions|
  {
    if actions != [] {
      var i := Init(cfg, port);
      var front, a := actions[..|actions| - 1], actions[|actions| - 1];
      LostOnlyByRestart(cfg, port, front, p);
      assert actions == front + [a];
      ExecSnoc(i, front, a);
      var c := Exec(i, front);
      NextSuperseded(c, a, p);
      hide Exec, Next, StartedOver;
      if p in c.superseded || (c.section.Launching? && c.osProcess == Some(p)) {
        StartedOverStays(i, front, a, p);
      } else if a.StartEnter? && c.section.Free? && c.state != Connected && c.osProcess == Some(p) {
        StartedNow(i, front, p);
      }
    }
  }

  lemma StartedNow(c: Client, front: seq<Action>, p: nat)
    requires var d := Exec(c, front);
      d.section.Free? && d.state != Connected && d.osProcess == Some(p)
    ensures StartedOver(c, front + [StartEnter], p)
  {
    hide Exec;
    assert (front + [StartEnter])[..|front|] == front;
    assert StartedOverAt(c, front + [StartEnter], p, |front|);
  }

  // ---------- which processes a stop kills ----------

  /** `Stop` or the locked half of `ForceStop` holds the lock. */
  predicate Stopping(s: Section) {
    s.StopKill? || s.StopHeld? || s.Closing?
  }

  /** The stop that holds the lock in `c` lets go of it with the last of the actions, not before. In between
      anyone else may take steps that do not need the lock. */
  predicate HeldUntil(c: Client, actions: seq<Action>)
    decreases |actions|
  {
    if actions == [] then c.section.Free?
    else Stopping(c.section) && HeldUntil(Next(c, actions[0]), actions[1..])
  }

  lemma HolderSteps(c: Client, ok: bool)
    requires Stopping(c.section)
    ensures var d := Next(c, Swap).section; d.StopHeld? || d.Closing?
    ensures c.section.StopHeld? || c.section.Closing? ==> Next(c, Kill(ok)).section.Closing?
    ensures c.section.Closing? ==> Next(c, Finish).section.Free?
  {
    hide Struck;
  }

  /** The holder's own steps are one way to get there. */
  lemma StopCanFinish(c: Client, ok: bool)
    requires Stopping(c.section)
    ensures HeldUntil(c, [Swap, Kill(ok), Finish])
  {
    hide Next;
    var s := [Swap, Kill(ok), Finish];
    assert s[1..] == [Kill(ok), Finish] && s[1..][1..] == [Finish] && s[1..][1..][1..] == [];
    var c1 := Next(c, Swap);
    var c2 := Next(c1, Kill(ok));
    HolderSteps(c, ok);
    HolderSteps(c1, ok);
    HolderSteps(c2, ok);
    assert HeldUntil(Next(c2, Finish), []);
    assert HeldUntil(c2, s[1..][1..]);
    assert HeldUntil(c1, s[1..]);
  }

  /** The handle that a stop leaves tracked: none if it was entered with the process field set, or if a
      `ForceStop` strikes before it ends. */
  function HandleLeft(c: Client, struck: bool): Option<nat> {
    if c.section.Closing? && !struck then c.osProcess else None
  }

  lemma StoppingStep(c: Client, a: Action)
    requires Stopping(c.section) && (c.section.StopHeld? ==> c.osProcess.None?)
    ensures var d := Next(c, a);
      && d.superseded == c.superseded && |d.processes| == |c.processes|
      && (if d.section.Free? then Quiet(d) && d.osProcess == HandleLeft(c, a.ForceSwap?)
          else
            && Stopping(d.section) && (d.section.StopHeld? ==> d.osProcess.None?)
            && HandleLeft(d, false) == HandleLeft(c, a.ForceSwap?) && HandleLeft(d, true) == None)
  {
    ProcessesEffect(c, a);
    if c.section.Closing? {
      ClosingStep(c, a);
    } else {
      BeforeClosingStep(c, a);
    }
    hide Next;
  }

  lemma ClosingStep(c: Client, a: Action)
    requires c.section.Closing?
    ensures var d := Next(c, a);
      && d.superseded == c.superseded && d.osProcess == (if a.ForceSwap? then None else c.osProcess)
      && (if a.Finish? then Quiet(d) else d.section.Closing?)
  {
    hide Struck;
  }

  lemma BeforeClosingStep(c: Client, a: Action)
    requires c.section.StopKill? || (c.section.StopHeld? && c.osProcess.None?)
    ensures var d := Next(c, a);
      && d.superseded == c.superseded && Stopping(d.section)
      && (d.section.StopKill? || d.osProcess.None?)
  {
    hide Struck;
  }

  lemma {:induction false} StopEnds(c: Client, actions: seq<Action>)
    requires Stopping(c.section) && (c.section.StopHeld? ==> c.osProcess.None?) && HeldUntil(c, actions)
    ensures var d := Exec(c, actions);
      && Quiet(d) && d.superseded == c.superseded && |d.processes| == |c.processes|
      && d.osProcess == HandleLeft(c, ForceSwap in actions)
    decreases |actions|
  {
    var a, rest := actions[0], actions[1..];
    assert actions == [a] + rest;
    StoppingStep(c, a);
    hide Next, Quiet;
    if rest != [] {
      assert Stopping(Next(c, a).section);
      StopEnds(Next(c, a), rest);
    }
  }

  /** In every run, whatever strikes while a stop holds the lock: after it, process `p` of this client has been
      killed, or is about to be by a racing `ForceStop`, if and only if its handle was not overwritten by a
      later spawn, and it was not the tracked one of a client whose process field is unset, unless such a
      `ForceStop` took it during the stop. */
  lemma StopKillsExactly(cfg: Config, port: nat, actions: seq<Action>, during: seq<Action>, p: nat)
    requires cfg.external ==> !cfg.stdio
    requires Exec(Init(cfg, port), actions).section.Free? && p < |Exec(Init(cfg, port), actions).processes|
    requires HeldUntil(Next(Exec(Init(cfg, port), actions), StopEnter), during)
    ensures var c := Exec(Init(cfg, port), actions);
      var d := Exec(Next(c, StopEnter), during);
      && Quiet(d) && |d.processes| == |c.processes|
      && (d.processes[p].kills + d.loose[p] == 1 <==>
            p !in c.superseded
            && (c.osProcess != Some(p) || (c.process.Some? && !c.cfg.external) || ForceSwap in during))
  {
    ExecInv(Init(cfg, port), actions);
    StopKills(Exec(Init(cfg, port), actions), during, p);
  }

  lemma StopKills(c: Client, during: seq<Action>, p: nat)
    requires HandleInv(c) && c.section.Free? && p < |c.processes| && HeldUntil(Next(c, StopEnter), during)
    ensures var d := Exec(Next(c, StopEnter), during);
      && Quiet(d) && |d.processes| == |c.processes|
      && (d.processes[p].kills + d.loose[p] == 1 <==>
            p !in c.superseded
            && (c.osProcess != Some(p) || (c.process.Some? && !c.cfg.external) || ForceSwap in during))
  {
    StopEnterEffect(c);
    NextHandles(c, StopEnter);
    hide Exec, Next, HeldUntil;
    var e := Next(c, StopEnter);
    HandlesKept(e, during);
    StopEnds(e, during);
    assert Balanced(Exec(e, during), p);
    hide HandleInv;
  }

  /** A restart whose spawn fails unsets the process field while the old process is still tracked, and the
      stop that follows leaves that process running. */
  lemma StopMissesTracked() returns (s: seq<Action>)
    ensures var c := Exec(Init(Config(false, true, false), 0), s);
      Quiet(c) && c.osProcess == Some(0) && c.processes == [Process(0, None)] && c.superseded == {} && c.loose[0] == 0
  {
    hide Exec, Next;
    var i := Init(Config(false, true, false), 0);
    var c := i;
    s := [];
    assert Exec(i, s) == c by { ExecNothing(i); }
    StartEffect(c);
    s, c := Extend(i, s, c, StartEnter);
    SpawnEffect(c);
    s, c := Extend(i, s, c, Spawn);
    DialEffect(c);
    s, c := Extend(i, s, c, DialOk);
    PingEffect(c, Ok(Some(3)));
    s, c := Extend(i, s, c, Ping(Some(3)));
    CloseEffect(c);
    s, c := Extend(i, s, c, CloseCallback);
    StartEffect(c);
    s, c := Extend(i, s, c, StartEnter);
    SpawnFailEffect(c);
    s, c := Extend(i, s, c, SpawnFail);
    StopEnterEffect(c);
    s, c := Extend(i, s, c, StopEnter);
    FinishEffect(c, true);
    s, c := Extend(i, s, c, Finish);
  }

  /** A restart after a close callback overwrites the handle of the old process, which no stop can kill. */
  lemma RestartOverwritesHandle() returns (s: seq<Action>)
    ensures var c := Exec(Init(Config(false, true, false), 0), s);
      Quiet(c) && c.osProcess == None && c.processes == [Process(0, None), Process(1, None)] && c.superseded == {0}
  {
    hide Exec, Next;
    var i := Init(Config(false, true, false), 0);
    var c := i;
    s := [];
    assert Exec(i, s) == c by { ExecNothing(i); }
    StartEffect(c);
    s, c := Extend(i, s, c, StartEnter);
    SpawnEffect(c);
    s, c := Extend(i, s, c, Spawn);
    DialEffect(c);
    s, c := Extend(i, s, c, DialOk);
    PingEffect(c, Ok(Some(3)));
    s, c := Extend(i, s, c, Ping(Some(3)));
    CloseEffect(c);
    s, c := Extend(i, s, c, CloseCallback);
    StartEffect(c);
    s, c := Extend(i, s, c, StartEnter);
    SpawnEffect(c);
    s, c := Extend(i, s, c, Spawn);
    DialEffect(c);
    s, c := Extend(i, s, c, DialOk);
    PingEffect(c, Ok(Some(3)));
    s, c := Extend(i, s, c, Ping(Some(3)));
    StopEnterEffect(c);
    s, c := Extend(i, s, c, StopEnter);
    StopKillEffect(c);
    s, c := Extend(i, s, c, Swap);
    StopHeldEffect(c, true);
    s, c := Extend(i, s, c, Kill(true));
    FinishEffect(c, true);
    s, c := Extend(i, s, c, Finish);
  }

  // ---------- a ForceStop that strikes while another call holds the lock ----------

  lemma NextKills(c: Client, a: Action, p: nat)
    requires p < |c.processes|
    ensures p < |Next(c, a).processes| && c.processes[p].kills <= Next(c, a).processes[p].kills
  {
    ProcessesEffect(c, a);
    hide Next;
  }

  /** A handle out of reach: its process has been killed, or whoever holds the handle will kill it. */
  predicate Taken(c: Client, p: nat)
    requires p < |c.processes|
  {
    c.processes[p].kills + c.loose[p] == 1
  }

  lemma NextTaken(c: Client, a: Action, p: nat)
    requires HandleInv(c) && p < |c.processes| && Taken(c, p)
    ensures p < |Next(c, a).processes| && Taken(Next(c, a), p)
  {
    NextHandles(c, a);
    NextKills(c, a, p);
    LooseOrKilled(c, a, p);
    assert Balanced(Next(c, a), p);
    hide Next, HandleInv;
  }

  lemma LooseOrKilled(c: Client, a: Action, p: nat)
    requires p < |c.processes|
    ensures p < |Next(c, a).processes|
    ensures c.processes[p].kills + c.loose[p] <= Next(c, a).processes[p].kills + Next(c, a).loose[p]
  {
    NextKills(c, a, p);
    if a.ForceKill? && Enabled(c, a) {
      ProcessesEffect(c, a);
    } else {
      assert a.ForceSwap? || Next(c, a).loose == c.loose;
    }
    hide Struck;
  }

  /** However a run goes on, a taken handle is used exactly once and comes back to nobody. */
  lemma {:induction false} TakenStays(c: Client, actions: seq<Action>, p: nat)
    requires HandleInv(c) && p < |c.processes| && Taken(c, p)
    ensures var d := Exec(c, actions);
      HandleInv(d) && p < |d.processes| && Taken(d, p) && d.osProcess != Some(p) && !Holds(d.section, p)
    decreases |actions|
  {
    if actions == [] {
      assert Balanced(c, p);
    } else {
      NextHandles(c, actions[0]);
      NextTaken(c, actions[0], p);
      hide HandleInv, Next, Taken;
      TakenStays(Next(c, actions[0]), actions[1..], p);
    }
  }

  lemma SwapTakes(c: Client, p: nat)
    requires HandleInv(c) && c.osProcess == Some(p)
    ensures HandleInv(Next(c, ForceSwap)) && p < |Next(c, ForceSwap).processes| && Taken(Next(c, ForceSwap), p)
  {
    NextHandles(c, ForceSwap);
    assert Balanced(c, p);
    assert Next(c, ForceSwap).loose[p] == c.loose[p] + 1 && Next(c, ForceSwap).processes == c.processes;
  }

  /** Once the holder of a taken handle has had its turn, the process has been killed, once. */
  lemma TakenIsKilled(c: Client, p: nat)
    requires HandleInv(c) && p < |c.processes| && Taken(c, p)
    ensures var d := Next(c, ForceKill(p));
      HandleInv(d) && p < |d.processes| && Taken(d, p) && d.processes[p].kills == 1
  {
    NextHandles(c, ForceKill(p));
    NextTaken(c, ForceKill(p), p);
    if c.loose[p] == 0 {
      assert Next(c, ForceKill(p)) == c;
    } else {
      assert Next(c, ForceKill(p)).processes == Struck(c.processes, Some(p));
    }
    hide Next, HandleInv;
  }

  /** `ForceStop` from any state of any run, whoever holds the lock, with anything at all running between its
      steps: after its swap the tracked process has been killed or is about to be, whatever happens, and no one
      else gets hold of it; after its kill it has been killed exactly once, and that stays; and when it has the
      lock and lets go of it again the client is quiet. */
  lemma ForceStopFromAnywhere(
      cfg: Config, port: nat, before: seq<Action>, p: nat, mid: seq<Action>, wait: seq<Action>, during: seq<Action>)
    requires cfg.external ==> !cfg.stdio
    requires Exec(Init(cfg, port), before).osProcess == Some(p)
    requires var m := Exec(Next(Exec(Init(cfg, port), before), ForceSwap), mid);
      var f := Exec(Next(m, ForceKill(p)), wait);
      f.section.Free? && HeldUntil(Next(f, StopEnter), during)
    ensures var m := Exec(Next(Exec(Init(cfg, port), before), ForceSwap), mid);
      var f := Exec(Next(m, ForceKill(p)), wait);
      var d := Exec(Next(f, StopEnter), during);
      && p < |m.processes| && Taken(m, p) && m.osProcess != Some(p)
      && p < |f.processes| && f.processes[p].kills == 1 && f.osProcess != Some(p)
      && p < |d.processes| && d.processes[p].kills == 1 && d.osProcess != Some(p)
      && Quiet(d)
  {
    ExecInv(Init(cfg, port), before);
    var b := Exec(Init(cfg, port), before);
    hide Exec, Next, HeldUntil, HandleInv, ConnectionInv, StartInv, ProcessInv, Taken, Quiet;
    SwapTakes(b, p);
    TakenStays(Next(b, ForceSwap), mid, p);
    var m := Exec(Next(b, ForceSwap), mid);
    TakenIsKilled(m, p);
    KilledStays(Next(m, ForceKill(p)), wait, p);
    var f := Exec(Next(m, ForceKill(p)), wait);
    StopEnterEffect(f);
    NextHandles(f, StopEnter);
    NextTaken(f, StopEnter, p);
    KilledStays(Next(f, StopEnter), during, p);
    StopEnds(Next(f, StopEnter), during);
  }

  lemma {:induction false} KilledStays(c: Client, actions: seq<Action>, p: nat)
    requires HandleInv(c) && p < |c.processes| && Taken(c, p) && c.processes[p].kills == 1
    ensures var d := Exec(c, actions);
      && HandleInv(d) && p < |d.processes| && Taken(d, p) && d.processes[p].kills == 1 && d.osProcess != Some(p)
    decreases |actions|
  {
    TakenStays(c, actions, p);
    if actions != [] {
      NextHandles(c, actions[0]);
      NextTaken(c, actions[0], p);
      NextKills(c, actions[0], p);
      assert Next(c, actions[0]).processes[p].kills == 1;
      hide HandleInv, Next, Taken;
      KilledStays(Next(c, actions[0]), actions[1..], p);
    }
  }

  lemma {:induction false} HandlesKept(c: Client, actions: seq<Action>)
    requires HandleInv(c)
    ensures HandleInv(Exec(c, actions))
    decreases |actions|
  {
    hide HandleInv, Next;
    if actions != [] {
      NextHandles(c, actions[0]);
      HandlesKept(Next(c, actions[0]), actions[1..]);
    }
  }
}
