/**
 * Starting, stopping and configuring message transport (services/agent.go over
 * nats/nats.go). One worker runs these tasks one after the other.
 */
module Lifecycle {
  import opened Wrappers

  datatype Connection = Connection(host: string, enabled: bool)

  /** What a configuration says as far as transport is concerned; natsSum is the checksum of its NATS part. */
  datatype Config = Config(agentID: string, appType: string, enabled: bool, connections: seq<Connection>, natsSum: nat)

  /**
   * How starting the server goes: bad options and a refused server leave none, a failed
   * stream leaves it running, a failed connection leaves it without its publisher.
   */
  datatype Start = Ready | BadOptions | NoServer | NoPublisher | NoStream

  datatype Error = Nil | NotConfigured | Unavailable | NoConnection | NotStarted(start: Start) | NotLoaded | Panicked

  /**
   * The shared flags: the server, the publisher's and the dispatcher's connections,
   * and the cancel functions of the server and of the dispatcher, if set.  A stop
   * that calls a cancel function never set ends the process.
   */
  datatype State = State(
    config: Config, gwClients: seq<Connection>,
    server: bool, publisher: bool, serverCancel: bool, dispatcher: bool, dispatcherCancel: bool, crashed: bool)

  datatype Result = Result(s: State, err: Error)

  // ---------------------------------------------------------------------
  // Configured, or not

  predicate IsConfiguredAgentID(id: string) { id != "" && id != "AGENT_ID" && id != "#traceOnDemandAgentID#" }

  predicate IsConfiguredAppType(t: string) { t != "" && t != "#traceOnDemandAppType#" }

  predicate IsConfigured(c: Config) { IsConfiguredAgentID(c.agentID) && IsConfiguredAppType(c.appType) }

  /** Simple case folding as far as it matters here: the long s folds with S. */
  function Fold(c: char): char {
    if 'a' <= c <= 'z' then (c as int - 32) as char else if c == '\U{017F}' then 'S' else c
  }

  predicate IsNagios(t: string) { |t| == 6 && forall i :: 0 <= i < 6 ==> Fold(t[i]) == "NAGIOS"[i] }

  function Enabled(connections: seq<Connection>): seq<Connection> {
    if connections == [] then []
    else Enabled(connections[..|connections| - 1])
         + (if connections[|connections| - 1].enabled then [connections[|connections| - 1]] else [])
  }

  /** Connection by connection: the enabled ones, in order. */
  lemma {:induction false} EnabledIff(connections: seq<Connection>, c: Connection)
    ensures c in Enabled(connections) <==> c in connections && c.enabled
    ensures Enabled(connections + [c]) == Enabled(connections) + if c.enabled then [c] else []
    decreases |connections|
  {
    assert (connections + [c])[..|connections|] == connections;
    if connections != [] {
      EnabledIff(connections[..|connections| - 1], c);
      assert connections == connections[..|connections| - 1] + [connections[|connections| - 1]];
    }
  }

  /** Neither empty nor one of the placeholders. */
  lemma ConfiguredIff(c: Config)
    ensures IsConfigured(c) <==>
      && c.agentID !in {"", "AGENT_ID", "#traceOnDemandAgentID#"}
      && c.appType !in {"", "#traceOnDemandAppType#"}
  {
  }

  /** NAGIOS in any mixture of cases. */
  lemma NagiosIff(t: string)
    ensures IsNagios(t) <==>
      && |t| == 6 && t[0] in "Nn" && t[1] in "Aa" && t[2] in "Gg" && t[3] in "Ii" && t[4] in "Oo"
      && t[5] in ['S', 's', '\U{017F}']
  {
    if |t| == 6 {
      assert IsNagios(t) <==> Fold(t[0]) == 'N' && Fold(t[1]) == 'A' && Fold(t[2]) == 'G'
                              && Fold(t[3]) == 'I' && Fold(t[4]) == 'O' && Fold(t[5]) == 'S';
    }
  }

  /** There is something to dispatch to: the connector is configured and a connection is enabled. */
  predicate CanDispatch(c: Config) { IsConfigured(c) && Enabled(c.connections) != [] }

  // ---------------------------------------------------------------------
  // The operations on values

  function StopDispatcher(s: State): State { s.(dispatcher := false, dispatcherCancel := false) }

  function StopTransport(s: State): State { if s.dispatcher then StopDispatcher(s) else s }

  function StopServer(s: State): State {
    if s.serverCancel then s.(publisher := false, dispatcher := false, server := false) else s.(crashed := true)
  }

  function StopNats(s: State): State { if s.server then StopServer(StopTransport(s)) else s }

  function StartNats(s: State, start: Start): Result {
    if s.server then Result(s, Nil)
    else match start
      case Ready => Result(s.(server := true, publisher := true, serverCancel := true), Nil)
      case NoStream => Result(s.(server := true, publisher := true, serverCancel := true), NotStarted(start))
      case NoPublisher => Result(s.(server := true), NotStarted(start))
      case _ => Result(s, NotStarted(start))
  }

  function StartDispatcher(s: State, connects: bool): Result {
    var s' := StopDispatcher(s);
    if !s'.server then Result(s', Unavailable)
    else if !connects then Result(s', NoConnection)
    else Result(s'.(dispatcher := true, dispatcherCancel := true), Nil)
  }

  function StartTransport(s: State, connects: bool): Result {
    if !IsConfigured(s.config) then Result(s, if IsNagios(s.config.appType) then Nil else NotConfigured)
    else if Enabled(s.config.connections) == [] then Result(s, Nil)
    else StartDispatcher(s.(gwClients := Enabled(s.config.connections)), connects)
  }

  function ResetNats(s: State, start: Start, connects: bool): State {
    var s1 := StopNats(s);
    if s1.crashed then s1
    else
      var s2 := if s.server then StartNats(s1, start).s else s1;
      if s.dispatcher then StartTransport(s2, connects).s else s2
  }

  /** What happens to the starts a task makes: the first time, and again in a reset. */
  datatype Luck = Luck(start: Start, connects: bool, again: Start, connectsAgain: bool)

  /** The new configuration is in place: restart what has to be restarted. */
  function Reconfigure(s: State, oldSum: nat, wasRunning: bool, luck: Luck): State {
    if s.config.natsSum != oldSum then
      var s1 := StopNats(s);
      if s1.crashed then s1
      else
        var s2 := StartNats(s1, luck.start).s;
        if s2.config.enabled then StartTransport(s2, luck.connects).s else s2
    else if s.config.enabled && wasRunning then StartTransport(s, luck.connects).s
    else s
  }

  /** A configuration that cannot be loaded leaves the old one, with transport stopped. */
  function Configure(s: State, load: Option<Config>, luck: Luck): Result {
    var s1 := StopTransport(s);
    if load.None? then Result(s1, NotLoaded)
    else
      var s2 := Reconfigure(s1.(config := load.value), s.config.natsSum, s.dispatcher, luck);
      var s3 := if s2.crashed || IsConfigured(s2.config) then s2 else ResetNats(s2, luck.again, luck.connectsAgain);
      Result(s3, if s3.crashed then Panicked else Nil)
  }

  function Exit(s: State): State { StopNats(StopTransport(s)) }

  // ---------------------------------------------------------------------
  // Tasks and runs

  datatype Task =
    | ConfigTask(load: Option<Config>, luck: Luck) | ExitTask | ResetTask(start: Start, connects: bool)
    | StartNatsTask(start: Start) | StopNatsTask | StartTransportTask(connects: bool) | StopTransportTask

  function Perform(s: State, task: Task): State {
    match task
    case ConfigTask(load, luck) => Configure(s, load, luck).s
    case ExitTask => Exit(s)
    case ResetTask(start, connects) => ResetNats(s, start, connects)
    case StartNatsTask(start) => StartNats(s, start).s
    case StopNatsTask => StopNats(s)
    case StartTransportTask(connects) => StartTransport(s, connects).s
    case StopTransportTask => StopTransport(s)
  }

  function New(config: Config): State { State(config, [], false, false, false, false, false, false) }

  /** A process that has crashed performs nothing more. */
  function Run(s: State, tasks: seq<Task>): State {
    if tasks == [] then s
    else
      var before := Run(s, tasks[..|tasks| - 1]);
      if before.crashed then before else Perform(before, tasks[|tasks| - 1])
  }

  /**
   * Transport runs only over a running server, for a configured connector, and to
   * exactly the enabled connections, of which there is one; the dispatcher's cancel
   * function comes with it; a publisher has a server and its cancel function.  A crash
   * is found with transport stopped and a server that has no cancel function.
   */
  predicate Sound(s: State) {
    && (s.dispatcher ==> s.server && CanDispatch(s.config) && s.gwClients == Enabled(s.config.connections))
    && (s.dispatcherCancel <==> s.dispatcher)
    && (s.publisher ==> s.server && s.serverCancel)
    && (s.crashed ==> s.server && !s.serverCancel && !s.dispatcher)
  }

  lemma StopNatsKeeps(s: State)
    requires Sound(s) && !s.crashed
    ensures var s' := StopNats(s);
      && Sound(s') && s'.config == s.config && !s'.dispatcher && s'.serverCancel == s.serverCancel
      && (s'.crashed <==> s.server && !s.serverCancel) && (s'.server <==> s'.crashed)
  {
  }

  lemma StartNatsKeeps(s: State, start: Start)
    requires Sound(s) && !s.crashed
    ensures var s' := StartNats(s, start).s;
      && Sound(s') && s'.config == s.config && !s'.crashed && s'.dispatcher == s.dispatcher
      && (s'.server <==> s.server || Leaves(start))
      && (s'.server && !s'.serverCancel <==> !s.serverCancel && (s.server || start.NoPublisher?))
  {
  }

  /** Starting transport runs it exactly when there is a server and something to dispatch to, enabled or not. */
  lemma StartTransportExactly(s: State, connects: bool)
    requires Sound(s) && !s.crashed
    ensures var r := StartTransport(s, connects);
      && Sound(r.s) && r.s.config == s.config && r.s.server == s.server && r.s.serverCancel == s.serverCancel && !r.s.crashed
      && (r.s.dispatcher <==> CanDispatch(s.config) && s.server && connects)
      && (r.err.Nil? <==> r.s.dispatcher || (IsConfigured(s.config) && Enabled(s.config.connections) == [])
                          || (!IsConfigured(s.config) && IsNagios(s.config.appType)))
  {
  }

  predicate Leaves(start: Start) { start.Ready? || start.NoPublisher? || start.NoStream? }

  /**
   * A reset keeps both services running or not, as far as the restarts allow, unless
   * the server has no cancel function: then it crashes.
   */
  lemma ResetExactly(s: State, start: Start, connects: bool)
    requires Sound(s) && !s.crashed
    ensures var s' := ResetNats(s, start, connects);
      && Sound(s') && s'.config == s.config
      && (s'.crashed <==> s.server && !s.serverCancel)
      && (!s'.crashed ==>
          && (s'.server <==> s.server && Leaves(start))
          && (s'.dispatcher <==> s.dispatcher && Leaves(start) && connects))
  {
    StopNatsKeeps(s);
    var s1 := StopNats(s);
    if !s1.crashed {
      StartNatsKeeps(s1, start);
      var s2 := if s.server then StartNats(s1, start).s else s1;
      StartTransportExactly(s2, connects);
    }
  }

  lemma ReconfigureExactly(s: State, oldSum: nat, wasRunning: bool, luck: Luck)
    requires Sound(s) && !s.crashed && !s.dispatcher
    ensures var s' := Reconfigure(s, oldSum, wasRunning, luck);
      var changed := s.config.natsSum != oldSum;
      && Sound(s') && s'.config == s.config
      && (s'.crashed <==> changed && s.server && !s.serverCancel)
      && (!s'.crashed ==>
          && (s'.server <==> if changed then Leaves(luck.start) else s.server)
          && (s'.server && !s'.serverCancel <==>
              !s.serverCancel && if changed then luck.start.NoPublisher? else s.server)
          && (s'.dispatcher <==> s.config.enabled && CanDispatch(s.config) && s'.server && luck.connects
                                 && (changed || wasRunning)))
  {
    StopNatsKeeps(s);
    var s1 := StopNats(s);
    StartTransportExactly(s, luck.connects);
    if !s1.crashed {
      StartNatsKeeps(s1, luck.start);
      StartTransportExactly(StartNats(s1, luck.start).s, luck.connects);
    }
  }

  /** When loading a configuration crashes: stopping for new NATS settings, or resetting an unconfigured connector. */
  predicate ConfigCrashes(s: State, config: Config, luck: Luck) {
    var changed := config.natsSum != s.config.natsSum;
    !s.serverCancel
    && ((s.server && (changed || !IsConfigured(config))) || (changed && luck.start.NoPublisher? && !IsConfigured(config)))
  }

  /**
   * After a configuration is loaded, transport runs exactly when the connector is
   * enabled and configured with an enabled connection, the server runs, the
   * connection succeeds, and either NATS was reconfigured or transport ran before.
   */
  lemma ConfigureExactly(s: State, config: Config, luck: Luck)
    requires Sound(s) && !s.crashed
    ensures var s' := Configure(s, Some(config), luck).s;
      var changed := config.natsSum != s.config.natsSum;
      && Sound(s') && s'.config == config
      && (s'.crashed <==> ConfigCrashes(s, config, luck))
      && (!s'.crashed ==>
          && (s'.server <==> (if changed then Leaves(luck.start) else s.server) && (IsConfigured(config) || Leaves(luck.again)))
          && (s'.dispatcher <==> config.enabled && CanDispatch(config) && s'.server && luck.connects
                                 && (changed || s.dispatcher)))
  {
    var s1 := StopTransport(s).(config := config);
    ReconfigureExactly(s1, s.config.natsSum, s.dispatcher, luck);
    var s2 := Reconfigure(s1, s.config.natsSum, s.dispatcher, luck);
    if !s2.crashed {
      ResetExactly(s2, luck.again, luck.connectsAgain);
    }
  }

  /** When a task crashes: it stops a server that has no cancel function. */
  predicate Crashes(s: State, task: Task) {
    match task
    case ConfigTask(load, luck) => load.Some? && ConfigCrashes(s, load.value, luck)
    case ExitTask | ResetTask(_, _) | StopNatsTask => s.server && !s.serverCancel
    case _ => false
  }

  lemma PerformKeeps(s: State, task: Task)
    requires Sound(s) && !s.crashed
    ensures Sound(Perform(s, task)) && (Perform(s, task).crashed <==> Crashes(s, task))
  {
    match task
    case ConfigTask(load, luck) =>
      if load.Some? {
        ConfigureExactly(s, load.value, luck);
      }
    case ExitTask => StopNatsKeeps(StopTransport(s));
    case ResetTask(start, connects) => ResetExactly(s, start, connects);
    case StartNatsTask(start) => StartNatsKeeps(s, start);
    case StopNatsTask => StopNatsKeeps(s);
    case StartTransportTask(connects) => StartTransportExactly(s, connects);
    case StopTransportTask =>
  }

  /** In every run of tasks, however their starts go. */
  lemma {:induction false} RunKeeps(config: Config, tasks: seq<Task>)
    ensures Sound(Run(New(config), tasks))
  {
    if tasks != [] {
      var init := tasks[..|tasks| - 1];
      RunKeeps(config, init);
      if !Run(New(config), init).crashed {
        PerformKeeps(Run(New(config), init), tasks[|tasks| - 1]);
      }
    }
  }

  /** No start of the task leaves a server without its publisher. */
  predicate Connects(task: Task) {
    match task
    case ConfigTask(_, luck) => !luck.start.NoPublisher? && !luck.again.NoPublisher?
    case ResetTask(start, _) => !start.NoPublisher?
    case StartNatsTask(start) => !start.NoPublisher?
    case _ => true
  }

  /** If every server that is started gets its publisher, no run crashes: every stop finds a cancel function. */
  lemma {:induction false} ConnectedNeverCrashes(config: Config, tasks: seq<Task>)
    requires forall i :: 0 <= i < |tasks| ==> Connects(tasks[i])
    ensures var s := Run(New(config), tasks); !s.crashed && (s.server ==> s.serverCancel)
  {
    if tasks != [] {
      var init := tasks[..|tasks| - 1];
      ConnectedNeverCrashes(config, init);
      RunKeeps(config, init);
      ConnectedKeeps(Run(New(config), init), tasks[|tasks| - 1]);
    }
  }

  lemma ConnectedKeeps(s: State, task: Task)
    requires Sound(s) && !s.crashed && (s.server ==> s.serverCancel) && Connects(task)
    ensures var s' := Perform(s, task); !s'.crashed && (s'.server ==> s'.serverCancel)
  {
    PerformKeeps(s, task);
    match task
    case ConfigTask(load, luck) =>
      if load.Some? {
        var s1 := StopTransport(s).(config := load.value);
        ReconfigureExactly(s1, s.config.natsSum, s.dispatcher, luck);
        CancelStays(Reconfigure(s1, s.config.natsSum, s.dispatcher, luck), luck.again, luck.connectsAgain);
      }
    case ResetTask(start, connects) => CancelStays(s, start, connects);
    case _ =>
  }

  lemma CancelStays(s: State, start: Start, connects: bool)
    requires Sound(s) && !s.crashed && (s.server ==> s.serverCancel) && !start.NoPublisher?
    ensures var s' := ResetNats(s, start, connects); s'.server ==> s'.serverCancel
  {
    StopNatsKeeps(s);
    StartNatsKeeps(StopNats(s), start);
  }

  /** A first server without its publisher does crash the next stop. */
  lemma UnconnectedCrashes(config: Config, stop: Task)
    requires stop.ExitTask? || stop.StopNatsTask? || stop.ResetTask?
    ensures Run(New(config), [StartNatsTask(NoPublisher), stop]).crashed
  {
    var first := StartNatsTask(NoPublisher);
    assert [first, stop][..1] == [first] && [first][..0] == [];
    assert Run(New(config), [first]) == New(config).(server := true);
  }

  // ---------------------------------------------------------------------
  // Transport and the enabled flag

  /** After any run that ends with a configuration task, transport runs only for an enabled connector. */
  lemma EnabledAfterConfig(config: Config, tasks: seq<Task>, load: Option<Config>, luck: Luck)
    ensures var s := Run(New(config), tasks + [ConfigTask(load, luck)]);
      s.dispatcher ==> load.Some? && s.config == load.value && s.config.enabled && CanDispatch(s.config)
  {
    var all := tasks + [ConfigTask(load, luck)];
    assert all[..|tasks|] == tasks;
    RunKeeps(config, tasks);
    var s := Run(New(config), tasks);
    if load.Some? && !s.crashed {
      ConfigureExactly(s, load.value, luck);
    }
  }

  predicate EnabledIfRuns(s: State) { s.dispatcher ==> s.config.enabled }

  /** One step breaks this exactly when it is a start request that succeeds for a disabled connector. */
  lemma DisabledIff(s: State, task: Task)
    requires Sound(s) && !s.crashed && EnabledIfRuns(s)
    ensures !EnabledIfRuns(Perform(s, task)) <==>
      task.StartTransportTask? && task.connects && CanDispatch(s.config) && s.server && !s.config.enabled
  {
    match task
    case ConfigTask(load, luck) =>
      if load.Some? {
        ConfigureExactly(s, load.value, luck);
      }
    case ExitTask => StopNatsKeeps(StopTransport(s));
    case ResetTask(start, connects) => ResetExactly(s, start, connects);
    case StartNatsTask(start) => StartNatsKeeps(s, start);
    case StopNatsTask => StopNatsKeeps(s);
    case StartTransportTask(connects) => StartTransportExactly(s, connects);
    case StopTransportTask =>
  }

  /** So in every run without start requests, transport runs only for an enabled connector. */
  lemma {:induction false} EnabledWithoutStarts(config: Config, tasks: seq<Task>)
    requires forall i :: 0 <= i < |tasks| ==> !tasks[i].StartTransportTask?
    ensures EnabledIfRuns(Run(New(config), tasks))
  {
    if tasks != [] {
      var init := tasks[..|tasks| - 1];
      EnabledWithoutStarts(config, init);
      RunKeeps(config, init);
      if !Run(New(config), init).crashed {
        DisabledIff(Run(New(config), init), tasks[|tasks| - 1]);
      }
    }
  }

  /** A start task does not look at the flag: transport can run for a disabled connector. */
  lemma DisabledCanRun(config: Config)
    requires CanDispatch(config) && !config.enabled
    ensures Run(New(config), [StartNatsTask(Ready), StartTransportTask(true)]).dispatcher
  {
    var first := StartNatsTask(Ready);
    assert [first, StartTransportTask(true)][..1] == [first] && [first][..0] == [];
    assert Run(New(config), []) == New(config);
    assert Run(New(config), [first]).server;
  }

  /** Exit leaves nothing running, unless the server has no cancel function. */
  lemma ExitStopsAll(s: State)
    requires Sound(s) && !s.crashed
    ensures var s' := Exit(s);
      && (s'.crashed <==> s.server && !s.serverCancel)
      && (!s'.crashed ==> !s'.server && !s'.dispatcher && !s'.publisher && !s'.dispatcherCancel)
  {
    StopNatsKeeps(StopTransport(s));
  }

  // ---------------------------------------------------------------------
  // The operations on the shared flags

  class Agent {
    var config: Config
    var gwClients: seq<Connection>
    var server: bool
    var publisher: bool
    var serverCancel: bool
    var dispatcher: bool
    var dispatcherCancel: bool
    /** Whether a nil cancel function has been called, which ends the process. */
    var crashed: bool

    ghost function View(): State
      reads this
    {
      State(config, gwClients, server, publisher, serverCancel, dispatcher, dispatcherCancel, crashed)
    }

    constructor (config: Config)
      ensures View() == New(config) && Sound(View())
    {
      this.config, gwClients := config, [];
      server, publisher, serverCancel, dispatcher, dispatcherCancel := false, false, false, false, false;
      crashed := false;
    }

    method CloseDispatcher()
      modifies this
      ensures View() == StopDispatcher(old(View()))
    {
      if dispatcherCancel {
        dispatcherCancel := false;
      }
      if dispatcher {
        dispatcher := false;
      }
    }

    /** Calls the cancel function, whether it is there or not. */
    method CloseServer()
      modifies this
      ensures View() == StopServer(old(View()))
    {
      if !serverCancel {
        crashed := true;
        return;
      }
      if publisher {
        publisher := false;
      }
      if dispatcher {
        dispatcher := false;
      }
      if server {
        server := false;
      }
    }

    method EndTransport()
      modifies this
      ensures View() == StopTransport(old(View()))
    {
      if dispatcher {
        CloseDispatcher();
      }
    }

    method EndNats()
      requires Sound(View()) && !crashed
      modifies this
      ensures View() == StopNats(old(View())) && Sound(View())
    {
      if !server {
        return;
      }
      EndTransport();
      CloseServer();
    }

    method BeginNats(start: Start) returns (err: Error)
      requires Sound(View()) && !crashed
      modifies this
      ensures Result(View(), err) == StartNats(old(View()), start) && Sound(View())
    {
      if server {
        return Nil;
      }
      if start.BadOptions? || start.NoServer? {
        return NotStarted(start);
      }
      server := true;
      if start.NoPublisher? {
        return NotStarted(start);
      }
      publisher := true;
      serverCancel := true;
      err := if start.NoStream? then NotStarted(start) else Nil;
    }

    method EnabledConnections() returns (clients: seq<Connection>)
      ensures clients == Enabled(config.connections)
    {
      clients := [];
      var cs := config.connections;
      for i := 0 to |cs|
        invariant clients == Enabled(cs[..i])
      {
        assert cs[..i + 1][..i] == cs[..i];
        if cs[i].enabled {
          clients := clients + [cs[i]];
        }
      }
      assert cs[..|cs|] == cs;
    }

    method BeginTransport(connects: bool) returns (err: Error)
      requires Sound(View()) && !crashed
      modifies this
      ensures Result(View(), err) == StartTransport(old(View()), connects) && Sound(View())
    {
      if !IsConfigured(config) {
        return if IsNagios(config.appType) then Nil else NotConfigured;
      }
      var clients := EnabledConnections();
      if |clients| == 0 {
        return Nil;
      }
      gwClients := clients;
      CloseDispatcher();
      if !server {
        return Unavailable;
      }
      if !connects {
        return NoConnection;
      }
      dispatcher := true;
      dispatcherCancel := true;
      err := Nil;
    }

    method Reset(start: Start, connects: bool)
      requires Sound(View()) && !crashed
      modifies this
      ensures View() == ResetNats(old(View()), start, connects) && Sound(View())
    {
      var natsRunning, transportRunning := server, dispatcher;
      EndNats();
      if crashed {
        return;
      }
      if natsRunning {
        var _ := BeginNats(start);
      }
      if transportRunning {
        var _ := BeginTransport(connects);
      }
    }

    method LoadConfig(load: Option<Config>, luck: Luck) returns (err: Error)
      requires Sound(View()) && !crashed
      modifies this
      ensures Result(View(), err) == Configure(old(View()), load, luck) && Sound(View())
    {
      var oldSum, wasRunning := config.natsSum, dispatcher;
      EndTransport();
      if load.None? {
        return NotLoaded;
      }
      config := load.value;
      Restart(oldSum, wasRunning, luck);
      if !crashed && !IsConfigured(config) {
        Reset(luck.again, luck.connectsAgain);
      }
      err := if crashed then Panicked else Nil;
    }

    method Restart(oldSum: nat, wasRunning: bool, luck: Luck)
      requires Sound(View()) && !crashed
      modifies this
      ensures View() == Reconfigure(old(View()), oldSum, wasRunning, luck) && Sound(View())
    {
      if config.natsSum != oldSum {
        EndNats();
        if crashed {
          return;
        }
        var _ := BeginNats(luck.start);
        if config.enabled {
          var _ := BeginTransport(luck.connects);
        }
      } else if config.enabled && wasRunning {
        var _ := BeginTransport(luck.connects);
      }
    }

    method Quit()
      requires Sound(View()) && !crashed
      modifies this
      ensures View() == Exit(old(View())) && Sound(View())
    {
      EndTransport();
      EndNats();
    }

    /** What the worker does with a task. */
    method Handle(task: Task)
      requires Sound(View()) && !crashed
      modifies this
      ensures View() == Perform(old(View()), task) && Sound(View())
    {
      match task
      case ConfigTask(load, luck) => var _ := LoadConfig(load, luck);
      case ExitTask => Quit();
      case ResetTask(start, connects) => Reset(start, connects);
      case StartNatsTask(start) => var _ := BeginNats(start);
      case StopNatsTask => EndNats();
      case StartTransportTask(connects) => var _ := BeginTransport(connects);
      case StopTransportTask =>
        PerformKeeps(View(), task);
        EndTransport();
    }
  }
}
