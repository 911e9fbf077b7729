/** The Go `Client` object: `Start`, `Stop` and `ForceStop` on its mutable fields. Wherever the methods can
    wait, a concurrent `ForceStop` may take the process handle without the lock. Every method performs steps
    of `ClientLifecycle`, so what that module proves of every run holds of every client object. */
module GoClient {
  import opened Wrappers
  import L = ClientLifecycle
  import M = ModelsCache

  /** How the world answers one Start: the spawn, the reported port, the dial, the ping with its reported
      version, the provider registration, the kill of a failing Start, and at which of the waiting points a
      concurrent `ForceStop` strikes. */
  datatype StartEnv = StartEnv(
    spawnOk: bool,
    reportedPort: Option<nat>,
    dialOk: bool,
    ping: Result<Option<int>, string>,
    providerOk: bool,
    killOk: bool,
    races: set<nat>)

  /** The server comes up. */
  predicate Launches(cfg: L.Config, env: StartEnv) {
    env.spawnOk && (cfg.stdio || env.reportedPort.Some?)
  }

  /** A server that is up, listening on `port` unless over stdio, is connected to and accepted. */
  predicate Accepts(cfg: L.Config, port: nat, env: StartEnv) {
    && (cfg.stdio || (port != 0 && env.dialOk))
    && env.ping.Ok? && env.ping.value.Some? && 2 <= env.ping.value.value <= 3
    && (cfg.sessionFs ==> env.providerOk)
  }

  const KILL_ERROR := "failed to kill CLI process"
  const CLOSE_ERROR := "failed to close socket"

  /** One error for each session that fails to disconnect, in order. */
  function SessionErrors(sessions: seq<string>, failing: set<string>): seq<string> {
    if sessions == [] then []
    else
      var last := sessions[|sessions| - 1];
      SessionErrors(sessions[..|sessions| - 1], failing)
      + (if last in failing then ["failed to disconnect session " + last] else [])
  }

  function ErrorParts(sessions: seq<string>, failing: set<string>): seq<seq<string>> {
    seq(|sessions|, k requires 0 <= k < |sessions| =>
      if sessions[k] in failing then ["failed to disconnect session " + sessions[k]] else [])
  }

  /** The errors are those of exactly the failing sessions, one each, in session order, each naming its own. */
  lemma {:induction false} ErrorsListFailing(sessions: seq<string>, failing: set<string>) returns (at: seq<nat>)
    ensures Picks(ErrorParts(sessions, failing), SessionErrors(sessions, failing), at)
  {
    if sessions == [] {
      at := [];
    } else {
      var n := |sessions| - 1;
      var front, last := sessions[..n], sessions[n];
      var part := if last in failing then ["failed to disconnect session " + last] else [];
      assert SessionErrors(sessions, failing) == SessionErrors(front, failing) + part;
      assert ErrorParts(sessions, failing) == ErrorParts(front, failing) + [part];
      hide SessionErrors, ErrorParts, Picks;
      var before := ErrorsListFailing(front, failing);
      PicksAppend(ErrorParts(front, failing), SessionErrors(front, failing), before, part);
      at := if part == [] then before else before + [|ErrorParts(front, failing)|];
    }
  }

  /** What it takes for a Start to succeed. */
  predicate Succeeds(cfg: L.Config, port: nat, env: StartEnv) {
    if cfg.external then Accepts(cfg, port, env)
    else Launches(cfg, env) && Accepts(cfg, if env.reportedPort.Some? then env.reportedPort.value else 0, env)
  }

  // ---------- the effect of some steps together ----------

  /** Failing with nothing tracked, and with a process to kill. */
  lemma FailEffect(c: L.Client, ok: bool)
    requires c.section.StartKill?
    requires c.osProcess.Some? ==> c.osProcess.value < |c.processes|
    ensures var s := L.Next(c, L.Swap);
      var d := if c.osProcess.Some? then L.Next(s, L.Kill(ok)) else s;
      && d == c.(processes := L.Struck(c.processes, c.osProcess), osProcess := None,
                 state := L.Failed, section := L.Free,
                 process := if c.osProcess.Some? && !ok && !c.section.launch then c.process else None)
  {
    hide L.Next;
    L.StartKillEffect(c);
    if c.osProcess.Some? {
      L.StartHeldEffect(L.Next(c, L.Swap), ok);
    }
  }

  /** What `StopServer` does to the model, up to its last step. */
  lemma StopEffect(c: L.Client, ok: bool)
    requires c.section.Free?
    requires c.osProcess.Some? ==> c.osProcess.value < |c.processes|
    ensures var e := L.Next(c, L.StopEnter);
      if c.process.Some? && !c.cfg.external then
        e == c.(section := L.StopKill)
        && var s := L.Next(e, L.Swap);
           var d := if c.osProcess.Some? then L.Next(s, L.Kill(ok)) else s;
           d == c.(processes := L.Struck(c.processes, c.osProcess), osProcess := None,
                   process := None, section := L.Closing)
      else e == c.(section := L.Closing)
  {
    hide L.Next;
    L.StopEnterEffect(c);
    if c.process.Some? && !c.cfg.external {
      var e := L.Next(c, L.StopEnter);
      L.StopKillEffect(e);
      if c.osProcess.Some? {
        L.StopHeldEffect(L.Next(e, L.Swap), ok);
      }
    }
  }

  lemma QuietStop(c: L.Client)
    requires L.Quiet(c)
    ensures L.Next(L.Next(c, L.StopEnter), L.Finish) == c
  {
  }

  lemma ForceEffect(c: L.Client)
    requires c.osProcess.Some? && c.osProcess.value < |c.processes|
    ensures var p := c.osProcess.value;
      L.Next(L.Next(c, L.ForceSwap), L.ForceKill(p)) ==
        c.(osProcess := None, processes := L.Struck(c.processes, c.osProcess))
  {
    assert c.loose + multiset{c.osProcess.value} - multiset{c.osProcess.value} == c.loose;
  }

  class Client {
    const cfg: L.Config
    var process: Option<nat>
    var osProcess: Option<nat>
    var conn: bool
    var client: Option<nat>
    var rpc: Option<nat>
    var state: L.ConnState
    var negotiatedVersion: int
    var actualPort: nat
    var errorCell: Option<nat>
    var sessions: seq<string>
    // every JSON-RPC client made, with the exit cell it was given, and the identity of the next process
    var connections: seq<Option<nat>>
    var nextProcess: nat
    // the models cache, which has a lock of its own
    const cache: M.Client

    ghost const firstPort: nat
    ghost var history: seq<L.Action>
    ghost var model: L.Client

    ghost predicate Valid()
      reads this
    {
      && (cfg.external ==> !cfg.stdio)
      && model == L.Exec(L.Init(cfg, firstPort), history)
      && Mirrors()
    }

    ghost predicate Mirrors()
      reads this
    {
      && model.cfg == cfg
      && model.process == process && model.osProcess == osProcess
      && model.conn == conn && model.client == client && model.rpc == rpc
      && model.state == state && model.version == negotiatedVersion && model.port == actualPort
      && model.errorCell == errorCell
      && |model.processes| == nextProcess && model.connections == connections
      && (osProcess.Some? ==> osProcess.value < nextProcess)
    }

    constructor (cfg: L.Config, port: nat)
      requires cfg.external ==> !cfg.stdio
      ensures Valid() && model.section.Free? && history == []
      ensures fresh(cache) && cache.modelsCache == null
      ensures this.cfg == cfg && state == L.Disconnected && sessions == []
    {
      this.cfg, firstPort := cfg, port;
      process, osProcess, conn, client, rpc := None, None, false, None, None;
      state, negotiatedVersion, errorCell := L.Disconnected, 0, None;
      actualPort := if cfg.external then port else 0;
      sessions, nextProcess, connections := [], 0, [];
      history, model := [], L.Init(cfg, port);
      cache := new M.Client();
    }

    ghost method Record(a: L.Action)
      requires model == L.Exec(L.Init(cfg, firstPort), history)
      modifies this`history, this`model
      ensures history == old(history) + [a] && model == L.Next(old(model), a)
      ensures model == L.Exec(L.Init(cfg, firstPort), history)
    {
      L.ExecConcat(L.Init(cfg, firstPort), history, [a]);
      assert [a][1..] == [];
      history := history + [a];
      model := L.Next(model, a);
    }

    /** The lock-free half of a `ForceStop` on another goroutine, if it strikes here. */
    method Race(strikes: bool)
      requires Valid()
      modifies this`osProcess, this`history, this`model
      ensures Valid() && model.section == old(model.section) && model.clean == old(model.clean)
      ensures osProcess == if strikes then None else old(osProcess)
    {
      if strikes {
        osProcess := None;
        Record(L.ForceSwap);
      }
    }

    /** A new JSON-RPC client with its facade. It is given the exit cell of the moment, and never another. */
    method Connect()
      modifies this`client, this`rpc, this`connections
      ensures client == Some(old(|connections|)) && rpc == client && connections == old(connections) + [errorCell]
    {
      client := Some(|connections|);
      rpc := client;
      connections := connections + [errorCell];
    }

    /** Takes the tracked handle, if any, and kills it; clears the process field unless the kill failed. */
    method KillProcess(killOk: bool) returns (failed: bool)
      modifies this`osProcess, this`process
      ensures osProcess == None
      ensures failed <==> old(osProcess).Some? && !killOk
      ensures process == if failed then old(process) else None
    {
      var p := osProcess;
      osProcess := None;
      if p.Some? {
        if !killOk {
          return true;
        }
      }
      process := None;
      failed := false;
    }

    /** The tail of every failing Start that had something to kill. */
    method FailStart(launch: bool, killOk: bool)
      requires Valid() && model.section == L.StartKill(launch)
      modifies this
      ensures Valid() && model.section.Free? && state == L.Failed && osProcess == None
      ensures sessions == old(sessions) && actualPort == old(actualPort)
      ensures model.processes == L.Struck(old(model.processes), old(osProcess))
      ensures process.Some? <==> !launch && !killOk && old(osProcess).Some?
    {
      hide L.Exec, L.Next;
      if osProcess.Some? {
        Spawned();
      }
      ghost var tracked := osProcess;
      FailEffect(model, killOk);
      Record(L.Swap);
      if tracked.Some? {
        Record(L.Kill(killOk));
      }
      var failed := KillProcess(killOk);
      if launch {
        process := None;
      }
      state := L.Failed;
    }

    /** Starts the server process and tracks it. */
    method MonitorProcess()
      modifies this`process, this`osProcess, this`errorCell, this`nextProcess
      ensures process == osProcess == errorCell == Some(old(nextProcess)) && nextProcess == old(nextProcess) + 1
    {
      process, osProcess, errorCell := Some(nextProcess), Some(nextProcess), Some(nextProcess);
      nextProcess := nextProcess + 1;
    }

    /** Over TCP, waits for the port the server reports. */
    method AwaitPort(reported: Option<nat>) returns (ok: bool)
      requires Valid() && model.section == L.AwaitingPort && state == L.Connecting
      modifies this`actualPort, this`history, this`model
      ensures Valid() && ok == reported.Some?
      ensures model.section == if ok then L.Dialing else L.StartKill(true)
      ensures ok ==> actualPort == reported.value
    {
      hide L.Exec;
      match reported
      case Some(port) =>
        actualPort := port;
        Record(L.PortReported(port));
        ok := true;
      case None =>
        Record(L.PortFail);
        ok := false;
    }

    /** The callback of a connection that closes, once it has the lock: whatever connection it was, the client
        is disconnected from then on, and keeps everything else. */
    method OnClose()
      requires Valid() && model.section.Free?
      modifies this`state, this`history, this`model
      ensures Valid() && model.section.Free? && state == L.Disconnected
    {
      hide L.Exec, L.Next;
      L.CloseEffect(model);
      state := L.Disconnected;
      Record(L.CloseCallback);
    }

    /** Spawns and tracks the process, and over stdio connects to it at once. */
    method SpawnProcess()
      requires Valid() && model.section == L.Launching && !cfg.external && state == L.Connecting
      modifies this`process, this`osProcess, this`errorCell, this`nextProcess, this`client, this`rpc,
               this`connections, this`history, this`model
      ensures Valid() && model.section == if cfg.stdio then L.Dialing else L.AwaitingPort
      ensures process == osProcess == errorCell == Some(old(nextProcess)) && nextProcess == old(nextProcess) + 1
      ensures if cfg.stdio
        then client == rpc == Some(old(|connections|)) && connections == old(connections) + [process]
        else client == old(client) && rpc == old(rpc) && connections == old(connections)
    {
      hide L.Exec, L.Next;
      L.SpawnEffect(model);
      MonitorProcess();
      if cfg.stdio {
        Connect();
      }
      Record(L.Spawn);
    }

    /** Spawns the server process and, over TCP, waits for the port it reports. */
    method StartCLIServer(env: StartEnv) returns (ok: bool)
      requires Valid() && model.section == L.Launching && !cfg.external && state == L.Connecting
      requires env.spawnOk
      modifies this`process, this`osProcess, this`errorCell, this`nextProcess, this`client, this`rpc,
               this`connections, this`actualPort, this`history, this`model
      ensures Valid()
      ensures ok <==> cfg.stdio || env.reportedPort.Some?
      ensures model.section == if ok then L.Dialing else L.StartKill(true)
      ensures ok && !cfg.stdio ==> actualPort == env.reportedPort.value
      ensures process == errorCell == Some(old(nextProcess)) && nextProcess == old(nextProcess) + 1
      ensures osProcess == if !cfg.stdio && 0 in env.races then None else process
      ensures if cfg.stdio
        then client == rpc == Some(old(|connections|)) && connections == old(connections) + [process]
        else client == old(client) && rpc == old(rpc) && connections == old(connections)
    {
      hide L.Exec, L.Next;
      SpawnProcess();
      if cfg.stdio {
        return true;
      }
      Race(0 in env.races);
      ok := AwaitPort(env.reportedPort);
    }

    /** Over stdio the spawn already connected; over TCP, dials the known port. */
    method ConnectToServer(dialOk: bool) returns (ok: bool)
      requires Valid() && model.section == L.Dialing && state == L.Connecting
      modifies this`conn, this`client, this`rpc, this`connections, this`history, this`model
      ensures Valid()
      ensures ok <==> cfg.stdio || (actualPort != 0 && dialOk)
      ensures if ok && !cfg.stdio
        then conn && client == rpc == Some(old(|connections|)) && connections == old(connections) + [errorCell]
        else conn == old(conn) && client == old(client) && rpc == old(rpc) && connections == old(connections)
      ensures model.section == if ok then L.Verifying else L.StartKill(false)
    {
      hide L.Exec, L.Next;
      L.DialEffect(model);
      ok := cfg.stdio || (actualPort != 0 && dialOk);
      if !ok {
        Record(L.DialFail);
        return;
      }
      if !cfg.stdio {
        conn := true;
        Connect();
      }
      Record(L.DialOk);
    }

    /** Pings the server and accepts the versions from 2 to 3. Without a file system to register this is the
        last thing that can fail, and the client is connected. */
    method VerifyProtocolVersion(ping: Result<Option<int>, string>) returns (ok: bool)
      requires Valid() && model.section == L.Verifying && client.Some? && state == L.Connecting
      modifies this`negotiatedVersion, this`state, this`history, this`model
      ensures Valid()
      ensures ok <==> ping.Ok? && ping.value.Some? && 2 <= ping.value.value <= 3
      ensures ok ==> negotiatedVersion == ping.value.value
      ensures model.section == if !ok then L.StartKill(false) else if cfg.sessionFs then L.Providing else L.Free
      ensures state == if ok && !cfg.sessionFs then L.Connected else L.Connecting
    {
      hide L.Exec, L.Next;
      L.PingEffect(model, ping);
      if ping.Err? {
        Record(L.PingFail);
        return false;
      }
      var version := ping.value;
      if version.None? {
        Record(L.Ping(version));
        return false;
      }
      if version.value < L.MIN_PROTOCOL || version.value > L.MAX_PROTOCOL {
        Record(L.Ping(version));
        return false;
      }
      negotiatedVersion := version.value;
      if !cfg.sessionFs {
        state := L.Connected;
      }
      Record(L.Ping(version));
      ok := true;
    }

    /** Registers the file system provider on the new connection, the last step of a Start that has one. */
    method SetProvider(providerOk: bool)
      requires Valid() && model.section == L.Providing && client.Some? && state == L.Connecting
      modifies this`state, this`history, this`model
      ensures Valid()
      ensures model.section == if providerOk then L.Free else L.StartKill(false)
      ensures state == if providerOk then L.Connected else L.Connecting
    {
      if providerOk {
        state := L.Connected;
        Record(L.ProviderOk);
      } else {
        Record(L.ProviderFail);
      }
    }

    /** Starts unless already connected. Whether it succeeds is decided by the world's answers alone; a
        failure leaves no process tracked if there was none before, and clears the process field unless
        killing the server reported an error. */
    method Start(env: StartEnv) returns (failed: bool)
      requires Valid() && model.section.Free?
      modifies this
      ensures Valid() && model.section.Free? && sessions == old(sessions)
      ensures old(state) == L.Connected ==> !failed && history == old(history) && state == L.Connected
      ensures old(state) != L.Connected ==> (failed <==> !Succeeds(cfg, old(actualPort), env))
      ensures state == if failed then L.Failed else L.Connected
      ensures !failed ==> L.Ready(model) && client.Some? && rpc == client
      ensures failed && old(osProcess).None? ==> osProcess.None?
    {
      hide L.Exec, L.Next;
      if state == L.Connected {
        Connected();
        return false;
      }
      state := L.Connecting;
      L.StartEffect(model);
      Record(L.StartEnter);
      if !cfg.external {
        var ok := Launch(env);
        if !ok {
          return true;
        }
      }
      Race(2 in env.races);
      failed := FinishStart(env);
    }

    /** The part of Start that brings the server up. */
    method Launch(env: StartEnv) returns (ok: bool)
      requires Valid() && model.section == L.Launching && !cfg.external && state == L.Connecting
      modifies this
      ensures Valid() && sessions == old(sessions)
      ensures ok <==> Launches(cfg, env)
      ensures ok ==> model.section == L.Dialing && state == L.Connecting
      ensures ok && !cfg.stdio ==> actualPort == env.reportedPort.value
      ensures !ok ==> model.section == L.Free && state == L.Failed
      ensures !ok && old(osProcess).None? ==> osProcess.None?
    {
      hide L.Exec, L.Next;
      Race(1 in env.races);
      if !env.spawnOk {
        process, state := None, L.Failed;
        L.SpawnFailEffect(model);
        Record(L.SpawnFail);
        return false;
      }
      ok := StartCLIServer(env);
      if !ok {
        FailStart(true, env.killOk);
      }
    }

    /** The part of Start after the server is up. */
    method FinishStart(env: StartEnv) returns (failed: bool)
      requires Valid() && model.section == L.Dialing && state == L.Connecting
      modifies this
      ensures Valid() && model.section.Free? && sessions == old(sessions)
      ensures failed <==> !Accepts(cfg, old(actualPort), env)
      ensures state == if failed then L.Failed else L.Connected
      ensures !failed ==> L.Ready(model) && client.Some? && rpc == client
      ensures failed ==> osProcess.None?
    {
      hide L.Exec, L.Next, L.Struck, L.Ready;
      var ok := ConnectToServer(env.dialOk);
      Race(3 in env.races);
      if !ok {
        FailStart(false, env.killOk);
        return true;
      }
      failed := Handshake(env);
    }

    /** The part of Start on the new connection: the version check, then the provider. */
    method Handshake(env: StartEnv) returns (failed: bool)
      requires Valid() && model.section == L.Verifying && state == L.Connecting
      modifies this
      ensures Valid() && model.section.Free? && sessions == old(sessions)
      ensures !failed <==>
        && env.ping.Ok? && env.ping.value.Some? && 2 <= env.ping.value.value <= 3
        && (cfg.sessionFs ==> env.providerOk)
      ensures state == if failed then L.Failed else L.Connected
      ensures !failed ==> L.Ready(model) && client.Some? && rpc == client
      ensures failed ==> osProcess.None?
    {
      hide L.Exec, L.Next, L.Struck, L.Ready;
      Verifying();
      var ok := VerifyProtocolVersion(env.ping);
      if !ok {
        Race(4 in env.races);
        FailStart(false, env.killOk);
        return true;
      }
      if cfg.sessionFs {
        Race(5 in env.races);
        Verifying();
        SetProvider(env.providerOk);
        if !env.providerOk {
          Race(6 in env.races);
          FailStart(false, env.killOk);
          return true;
        }
      }
      Connected();
      failed := false;
    }

    /** The part of `Stop` before it takes the lock, in whatever state the lock holder is: disconnects every
        session and forgets them. The errors are those of the sessions that failed, in order; they stop
        nothing. */
    method StopSessions(failing: set<string>) returns (errs: seq<string>)
      requires Valid()
      modifies this`sessions
      ensures Valid() && sessions == [] && errs == SessionErrors(old(sessions), failing)
      ensures old(sessions) == [] ==> errs == []
    {
      errs := [];
      for k := 0 to |sessions|
        invariant errs == SessionErrors(sessions[..k], failing)
      {
        assert sessions[..k + 1][..k] == sessions[..k];
        if sessions[k] in failing {
          errs := errs + ["failed to disconnect session " + sessions[k]];
        }
      }
      assert sessions[..|sessions|] == sessions;
      sessions := [];
    }

    /** The rest of `Stop`, once it has the lock. Its errors are a failed kill, then a failed close. */
    method StopLocked(killOk: bool, closeOk: bool) returns (errs: seq<string>)
      requires Valid() && model.section.Free?
      modifies this, cache
      ensures Valid() && L.Quiet(model) && sessions == old(sessions) && cache.modelsCache == null
      ensures errs ==
        (if old(process).Some? && !cfg.external && old(osProcess).Some? && !killOk then [KILL_ERROR] else [])
        + (if cfg.external && old(conn) && !closeOk then [CLOSE_ERROR] else [])
      ensures osProcess == if old(process).Some? && !cfg.external then None else old(osProcess)
      ensures model.processes ==
        L.Struck(old(model.processes), if old(process).Some? && !cfg.external then old(osProcess) else None)
      ensures L.Quiet(old(model)) ==> errs == [] && model == old(model)
    {
      errs := [];
      var hadConn := conn;
      var killFailed := StopServer(killOk);
      if killFailed {
        errs := errs + [KILL_ERROR];
      }
      if cfg.external && hadConn && !closeOk {
        errs := errs + [CLOSE_ERROR];
      }
    }

    /** The part of `Stop` and `ForceStop` under the lock. */
    method StopServer(killOk: bool) returns (killFailed: bool)
      requires Valid() && model.section.Free?
      modifies this, cache
      ensures Valid() && L.Quiet(model) && sessions == old(sessions) && cache.modelsCache == null
      ensures killFailed <==> old(process).Some? && !cfg.external && old(osProcess).Some? && !killOk
      ensures osProcess == if old(process).Some? && !cfg.external then None else old(osProcess)
      ensures model.processes ==
        L.Struck(old(model.processes), if old(process).Some? && !cfg.external then old(osProcess) else None)
      ensures L.Quiet(old(model)) ==> model == old(model)
    {
      hide L.Exec, L.Next;
      if L.Quiet(model) {
        QuietStop(model);
      }
      killFailed := StopProcess(killOk);
      Finish();
    }

    /** Kills the server if this client spawned it. */
    method StopProcess(killOk: bool) returns (killFailed: bool)
      requires Valid() && model.section.Free?
      modifies this`process, this`osProcess, this`history, this`model
      ensures model == L.Exec(L.Init(cfg, firstPort), history) && model.section.Closing?
      ensures MirrorsBut() && process.None?
      ensures killFailed <==> old(process).Some? && !cfg.external && old(osProcess).Some? && !killOk
      ensures osProcess == if old(process).Some? && !cfg.external then None else old(osProcess)
      ensures model.processes ==
        L.Struck(old(model.processes), if old(process).Some? && !cfg.external then old(osProcess) else None)
      ensures old(process).None? ==> model == L.Next(old(model), L.StopEnter)
    {
      hide L.Exec, L.Next;
      ghost var tracked := osProcess;
      StopEffect(model, killOk);
      Record(L.StopEnter);
      killFailed := false;
      if process.Some? && !cfg.external {
        Record(L.Swap);
        if tracked.Some? {
          Record(L.Kill(killOk));
        }
        killFailed := KillProcess(killOk);
      }
      process := None;
    }

    method Finish()
      requires model == L.Exec(L.Init(cfg, firstPort), history) && model.section.Closing?
      requires MirrorsBut() && process.None?
      modifies this`conn, this`client, this`rpc, this`state, this`actualPort, this`history, this`model, cache
      ensures Mirrors() && model == L.Exec(L.Init(cfg, firstPort), history) && L.Quiet(model)
      ensures cache.modelsCache == null
      ensures model == L.Next(old(model), L.Finish) && model.processes == old(model.processes)
    {
      hide L.Exec, L.Next;
      L.FinishEffect(model, true);
      if cfg.external {
        conn := false;
      }
      client := None;
      cache.Clear();
      state := L.Disconnected;
      if !cfg.external {
        actualPort := 0;
      }
      rpc := None;
      Record(L.Finish);
    }

    /** `Mirrors` but for the process field, which the stopping code clears a moment later. */
    ghost predicate MirrorsBut()
      reads this
    {
      && model.cfg == cfg && model.osProcess == osProcess
      && model.conn == conn && model.client == client && model.rpc == rpc
      && model.state == state && model.version == negotiatedVersion && model.port == actualPort
      && model.errorCell == errorCell
      && |model.processes| == nextProcess && model.connections == connections
      && (osProcess.Some? ==> osProcess.value < nextProcess)
    }

    /** The first half of `ForceStop`, in whatever state the lock holder is: a tracked process is killed
        exactly once, and the sessions are forgotten. */
    method ForceStopUnlocked()
      requires Valid()
      modifies this`osProcess, this`sessions, this`history, this`model
      ensures Valid() && model.section == old(model.section) && osProcess.None? && sessions == []
      ensures model.processes == L.Struck(old(model.processes), old(osProcess))
      ensures history == old(history)
        + if old(osProcess).Some? then [L.ForceSwap] + [L.ForceKill(old(osProcess).value)] else []
    {
      hide L.Exec, L.Next;
      ghost var tracked := osProcess;
      osProcess := None;
      if tracked.Some? {
        ForceEffect(model);
        Record(L.ForceSwap);
        Record(L.ForceKill(tracked.value));
      }
      sessions := [];
    }

    /** The second half of `ForceStop`, once it has the lock: kills a process started in between, and leaves
        the client quiet. */
    method ForceStopLocked(killOk: bool)
      requires Valid() && model.section.Free?
      modifies this, cache
      ensures Valid() && L.Quiet(model) && sessions == old(sessions) && cache.modelsCache == null
      ensures model.processes ==
        L.Struck(old(model.processes), if old(process).Some? && !cfg.external then old(osProcess) else None)
    {
      var _ := StopServer(killOk);
    }

    lemma Spawned()
      requires Valid() && model.section.StartKill? && osProcess.Some?
      ensures process.Some?
    {
      L.ExecInv(L.Init(cfg, firstPort), history);
    }

    lemma Verifying()
      requires Valid() && (model.section.Verifying? || model.section.Providing?)
      ensures client.Some? && rpc == client
    {
      L.ExecInv(L.Init(cfg, firstPort), history);
    }

    lemma Connected()
      requires Valid() && model.section.Free? && state == L.Connected
      ensures L.Ready(model) && client.Some? && rpc == client
    {
      L.ConnectedMeansReady(cfg, firstPort, history);
    }
  }
}
