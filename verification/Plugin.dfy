/**
  The plugin object of `nm-snx-service.c` itself: its fields and the functions that update
  them in place. A ghost run lists the steps taken so far; every entry point extends it by its
  own step and keeps `Valid`, which says that the object is the state the run leads to. So
  what is proved about all runs holds of the object after any sequence of calls. The world it
  acts on (descriptors, threads, routes, the requests on their way) is a record beside the
  fields.
 */
module Plugin {
  import opened Wrappers
  import opened Bits
  import opened Ipv4Text
  import opened Session
  import opened Conservation
  import opened AuthSafety
  import opened SessionOutcomes
  import opened BypassRoute

  /** Gives back what a field holds, if it holds something. */
  function Dropped(w: World, id: Option<nat>): World
  {
    if id.Some? then w.(released := w.released + multiset{id.value}) else w
  }

  lemma DropAdds(w: World, id: Option<nat>)
    ensures Dropped(w, id) == w.(released := w.released + One(id))
  {
    assert w.released + multiset{} == w.released;
  }

  /** Giving the fields back one by one gives back everything they held. */
  lemma DroppedInOrder(w: World, p: Fields)
    ensures Dropped(Dropped(Dropped(Dropped(Dropped(Dropped(
              w, p.timer), p.tunFd), p.downlink), p.uplink), p.wakeFd), p.tunnel)
            == w.(released := w.released + FieldsHold(p))
  {
    hide Dropped, One;
    var a := w.(released := w.released + One(p.timer));
    var b := a.(released := a.released + One(p.tunFd));
    var c := b.(released := b.released + One(p.downlink));
    var d := c.(released := c.released + One(p.uplink));
    var e := d.(released := d.released + One(p.wakeFd));
    DropAdds(w, p.timer);
    DropAdds(a, p.tunFd);
    DropAdds(b, p.downlink);
    DropAdds(c, p.uplink);
    DropAdds(d, p.wakeFd);
    DropAdds(e, p.tunnel);
    SumInOrder(w.released, One(p.timer), One(p.tunFd), One(p.downlink), One(p.uplink), One(p.wakeFd), One(p.tunnel));
  }

  lemma SumInOrder(r: multiset<nat>, a: multiset<nat>, b: multiset<nat>, c: multiset<nat>, d: multiset<nat>,
                   e: multiset<nat>, f: multiset<nat>)
    ensures r + a + b + c + d + e + f == r + (f + b + e + d + c + a)
  {
  }

  class SnxVpnPlugin {
    var cancellable: Option<nat>
    var awaitingChallenge: bool
    var cccSessionId: Option<string>
    var tcptPort: nat
    var gatewayIp: Option<string>
    var tunnel: Option<nat>
    var tunFd: Option<nat>
    var tunName: Option<string>
    var uplinkThread: Option<nat>
    var downlinkThread: Option<nat>
    var uplinkWakeFd: Option<nat>
    var keepaliveSource: Option<nat>
    var bypassRouteActive: bool
    var bypassRouteIfname: string
    var bypassRouteDest: word
    var bypassRouteGateway: word

    var world: World
    var tasks: seq<Task>
    var phase: Phase

    ghost var run: seq<Step>

    ghost predicate Valid()
      reads this
    {
      After(run) == Some(State())
    }

    constructor ()
      ensures Valid() && run == []
    {
      cancellable, awaitingChallenge, cccSessionId, tcptPort, gatewayIp := None, false, None, 0, None;
      tunnel, tunFd, tunName, uplinkWakeFd := None, None, None, None;
      uplinkThread, downlinkThread, keepaliveSource := None, None, None;
      bypassRouteActive, bypassRouteIfname, bypassRouteDest, bypassRouteGateway := false, "", 0, 0;
      world, tasks, phase := Init().w, [], Idle;
      run := [];
    }

    /** The record the machine keeps about the bypass route: none while the flag is off. */
    function RecordedRoute(): Option<Bypass>
      reads `bypassRouteActive, `bypassRouteIfname, `bypassRouteDest, `bypassRouteGateway
    {
      if bypassRouteActive then Some(Bypass(bypassRouteIfname, bypassRouteDest, bypassRouteGateway)) else None
    }

    function State(): State
      reads `cancellable, `awaitingChallenge, `cccSessionId, `tcptPort, `gatewayIp, `tunnel, `tunFd, `tunName
      reads `uplinkThread, `downlinkThread, `uplinkWakeFd, `keepaliveSource, `bypassRouteActive, `bypassRouteIfname
      reads `bypassRouteDest, `bypassRouteGateway, `world, `tasks, `phase
    {
      Session.State(
        Fields(cancellable, awaitingChallenge, cccSessionId, tcptPort, gatewayIp, tunnel, tunFd, tunName,
               uplinkWakeFd, uplinkThread, downlinkThread, keepaliveSource, RecordedRoute()),
        world, tasks, phase)
    }

    /** Notes the step that the code above the call has taken. */
    ghost method Taken(step: Step, before: State)
      requires After(run) == Some(before) && Enabled(before, step) && State() == Next(before, step)
      modifies `run
      ensures Valid() && run == old(run) + [step]
    {
      hide Enabled, Next;
      AfterStep(run, step);
      run := run + [step];
    }

    // ---- what holds of the object after any sequence of calls ----

    /** Whatever was ever opened is held once, by one field or one worker, or was released once. */
    lemma ObjectHoldsOnce(x: nat)
      requires Valid() && x < world.nextId
      ensures if x in Held(State()) then Held(State())[x] == 1 && world.released[x] == 0 else world.released[x] == 1
    {
      hide After, Held;
      HeldOnceOrReleasedOnce(run, x);
    }

    /** The events so far are justified, and the routes added are accounted for. */
    lemma ObjectIsSafe(i: nat)
      requires Valid() && i < |world.history|
      ensures Justified(world.history[..i], world.history[i])
      ensures world.added == world.deleted + world.overwritten + One(RecordedRoute())
    {
      hide After, Justified;
      EveryRunIsSafe(run, i);
      RunsBalance(run);
    }

    /** A published tunnel overwrites nothing, and the timer always finds a tunnel to send on. */
    lemma ObjectIsWhole()
      requires Valid()
      ensures Busy(State()) || Bare(State().p) || Forwarding(State().p)
      ensures keepaliveSource.Some? ==> tunnel.Some?
    {
      hide After, Busy;
      AllOrNothing(run);
    }

    // ---- parts of the entry points ----

    method Observe(e: Event)
      modifies `world
      ensures State() == Record(old(State()), e)
    {
      hide RecordedRoute;
      world := world.(history := world.history + [e]);
    }

    method Await(awaiting: bool)
      modifies `awaitingChallenge
      ensures State() == old(State()).(p := old(State()).p.(awaitingChallenge := awaiting))
    {
      hide RecordedRoute;
      awaitingChallenge := awaiting;
    }

    method Enter(next: Phase)
      modifies `phase
      ensures State() == old(State()).(phase := next)
    {
      hide RecordedRoute;
      phase := next;
    }

    method NewCancellable()
      modifies `cancellable, `world
      ensures var s := old(State());
              State() == s.(p := s.p.(cancellable := Some(s.w.nextToken)), w := s.w.(nextToken := s.w.nextToken + 1))
    {
      hide RecordedRoute;
      cancellable := Some(world.nextToken);
      world := world.(nextToken := world.nextToken + 1);
    }

    method RunInThread(stage: Stage)
      modifies `tasks
      ensures State() == Start(old(State()), stage)
    {
      hide RecordedRoute;
      tasks := tasks + [Task(cancellable, stage)];
    }

    method CancelInflightTask()
      modifies `cancellable, `world
      ensures State() == Cancel(old(State()))
    {
      if cancellable.Some? {
        world := world.(cancelled := world.cancelled + {cancellable.value});
        cancellable := None;
      }
    }

    lemma DeletedIs(d: multiset<Bypass>, b: Option<Bypass>)
      ensures d + One(b) == if b.Some? then d + multiset{b.value} else d
    {
    }

    method RemoveBypassRoute()
      modifies `bypassRouteActive, `world
      ensures !bypassRouteActive
      ensures world == old(world).(deleted := old(world).deleted + One(old(RecordedRoute())),
                                   routes := Unrouted(old(world).routes, old(RecordedRoute())))
    {
      DeletedIs(world.deleted, RecordedRoute());
      if bypassRouteActive {
        var route := Bypass(bypassRouteIfname, bypassRouteDest, bypassRouteGateway);
        world := world.(deleted := world.deleted + multiset{route}, routes := Unrouted(world.routes, Some(route)));
        bypassRouteActive := false;
      }
    }

    /** Timer, TUN descriptor, threads, wake descriptor and tunnel, in the order of the source. */
    method ReleaseRuntime()
      modifies `keepaliveSource, `tunFd, `downlinkThread, `uplinkThread, `uplinkWakeFd, `tunnel, `tunName, `world
      ensures keepaliveSource == tunFd == downlinkThread == uplinkThread == uplinkWakeFd == tunnel == None
      ensures tunName == None
      ensures world == old(world).(released := old(world).released + FieldsHold(old(State()).p))
    {
      hide One, FieldsHold, Dropped;
      DroppedInOrder(world, State().p);
      world := Dropped(world, keepaliveSource);
      keepaliveSource := None;
      world := Dropped(world, tunFd);
      tunFd := None;
      world := Dropped(world, downlinkThread);
      downlinkThread := None;
      world := Dropped(world, uplinkThread);
      uplinkThread := None;
      world := Dropped(world, uplinkWakeFd);
      uplinkWakeFd := None;
      world := Dropped(world, tunnel);
      tunnel := None;
      tunName := None;
    }

    method TeardownTunnel()
      modifies `keepaliveSource, `tunFd, `downlinkThread, `uplinkThread, `uplinkWakeFd, `tunnel, `tunName, `world
      modifies `bypassRouteActive
      ensures State() == Teardown(old(State()))
    {
      hide One, FieldsHold;
      ghost var p := State().p;
      RemoveBypassRoute();
      SameHold(p, State().p);
      ReleaseRuntime();
    }

    lemma SameHold(p: Fields, q: Fields)
      requires q == p.(bypass := q.bypass)
      ensures FieldsHold(p) == FieldsHold(q)
    {
    }

    method ResetPluginState()
      modifies `keepaliveSource, `tunFd, `downlinkThread, `uplinkThread, `uplinkWakeFd, `tunnel, `tunName, `world
      modifies `bypassRouteActive, `cancellable, `cccSessionId, `gatewayIp, `awaitingChallenge, `tcptPort
      ensures State() == Reset(old(State()))
    {
      hide Cancel, Teardown;
      CancelInflightTask();
      TeardownTunnel();
      cccSessionId, gatewayIp := None, None;
      awaitingChallenge := false;
      tcptPort := 0;
    }

    method StartTunnel(key: string)
      modifies `tasks, `world
      ensures State() == Record(Start(old(State()), Connecting(tcptPort, key)), TunnelStarted(tcptPort, key))
    {
      RunInThread(Connecting(tcptPort, key));
      Observe(TunnelStarted(tcptPort, key));
    }

    method StoreGateway(info: Option<Gateway>)
      modifies `tcptPort, `gatewayIp
      ensures State() == Session.StoreGateway(old(State()), info)
    {
      if info.Some? {
        tcptPort := info.value.port % 0x1_0000;
        gatewayIp := info.value.ip;
      }
    }

    method AcceptReply(reply: AuthReply) returns (failed: bool)
      modifies `tcptPort, `gatewayIp, `cccSessionId, `awaitingChallenge, `tasks, `world
      ensures State() == AuthNext(old(State()), reply)
      ensures failed <==> reply.status != Some("continue")
                          && !(reply.status == Some("done") && reply.authenticated && reply.key.Some?)
    {
      hide Start, Record, Session.StoreGateway;
      Observe(Replied(reply));
      StoreGateway(reply.info);
      if reply.status == Some("continue") {
        cccSessionId := reply.sessionId;
        awaitingChallenge := true;
        return false;
      }
      if reply.status != Some("done") || !reply.authenticated || reply.key.None? {
        return true;
      }
      StartTunnel(reply.key.value);
      return false;
    }

    /** Wake descriptor, threads and timer take the next numbers in this order. */
    lemma NumbersInOrder(s: State, wakeOk: bool, keepalive: nat, first: nat, wake: Option<nat>, timer: Option<nat>,
                         next: nat)
      requires first == if wakeOk then s.w.nextId + 1 else s.w.nextId
      requires wake == if wakeOk then Some(s.w.nextId) else None
      requires timer == if keepalive > 0 then Some(first + 2) else s.p.timer
      requires next == if keepalive > 0 then first + 3 else first + 2
      ensures ForwardNext(s, wakeOk, keepalive)
              == s.(p := s.p.(wakeFd := wake, uplink := Some(first), downlink := Some(first + 1), timer := timer),
                    w := s.w.(nextId := next))
    {
    }

    method StoreThreads(wake: Option<nat>, first: nat)
      modifies `uplinkWakeFd, `uplinkThread, `downlinkThread
      ensures var s := old(State());
              State() == s.(p := s.p.(wakeFd := wake, uplink := Some(first), downlink := Some(first + 1)))
    {
      hide RecordedRoute;
      uplinkWakeFd := wake;
      uplinkThread := Some(first);
      downlinkThread := Some(first + 1);
    }

    method StoreTimer(timer: Option<nat>)
      modifies `keepaliveSource
      ensures State() == old(State()).(p := old(State()).p.(timer := timer))
    {
      hide RecordedRoute;
      keepaliveSource := timer;
    }

    method TakeNumbers(next: nat)
      modifies `world
      ensures State() == old(State()).(w := old(State()).w.(nextId := next))
    {
      hide RecordedRoute;
      world := world.(nextId := next);
    }

    method StartForwarding(wakeOk: bool, keepalive: nat)
      modifies `uplinkWakeFd, `uplinkThread, `downlinkThread, `keepaliveSource, `world
      ensures State() == ForwardNext(old(State()), wakeOk, keepalive)
    {
      hide ForwardNext, RecordedRoute;
      var first := if wakeOk then world.nextId + 1 else world.nextId;
      var wake := if wakeOk then Some(world.nextId) else None;
      var timer := if keepalive > 0 then Some(first + 2) else keepaliveSource;
      var next := if keepalive > 0 then first + 3 else first + 2;
      NumbersInOrder(State(), wakeOk, keepalive, first, wake, timer, next);
      StoreThreads(wake, first);
      StoreTimer(timer);
      TakeNumbers(next);
    }

    method FinishConnect(valid: bool, wakeOk: bool, keepalive: nat) returns (failed: bool)
      modifies `keepaliveSource, `tunFd, `downlinkThread, `uplinkThread, `uplinkWakeFd, `tunnel, `tunName, `world
      modifies `bypassRouteActive
      ensures State() == FinishNext(old(State()), valid, wakeOk, keepalive)
      ensures failed <==> !valid || old(gatewayIp).None? || Pton(old(gatewayIp).value).None?
    {
      hide Teardown, ForwardNext, Record, Pton;
      if gatewayIp.None? || Pton(gatewayIp.value).None? || !valid {
        TeardownTunnel();
        return true;
      }
      Observe(ConfigSet(gatewayIp.value));
      StartForwarding(wakeOk, keepalive);
      return false;
    }

    /** A worker goes on to its next stage. */
    method Move(i: nat, stage: Stage)
      requires i < |tasks|
      modifies `tasks
      ensures State() == SetStage(old(State()), i, stage)
    {
      tasks := tasks[i := tasks[i].(stage := stage)];
    }

    // ---- the entry points of the main loop ----

    /** `snx_vpn_connect`. */
    method Connect(configOk: bool) returns (ok: bool)
      requires Valid() && Enabled(State(), Step.Connect(configOk))
      modifies this
      ensures Valid() && run == old(run) + [Step.Connect(configOk)] && ok == configOk
    {
      hide Session.Reset, After;
      ghost var before := State();
      ResetPluginState();
      NewCancellable();
      Enter(Attempt);
      Observe(Connected);
      if configOk {
        RunInThread(LoggingIn);
      }
      Taken(Step.Connect(configOk), before);
      return configOk;
    }

    /**
      `snx_vpn_new_secrets`: accepted exactly while a challenge is awaited and there is a code.
      During an attempt that is a step of the run. Outside of one nothing the source has would
      refuse a code that is still awaited, and the object leaves the runs.
     */
    method NewSecrets(code: string) returns (ok: bool)
      requires Valid()
      modifies this
      ensures ok == (old(awaitingChallenge) && code != "")
      ensures State() == SecretsNext(old(State()), code)
      ensures run == if old(phase) == Attempt then old(run) + [Step.NewSecrets(code)] else old(run)
      ensures old(phase) == Attempt || !ok ==> Valid()
    {
      hide After, RecordedRoute;
      ghost var before := State();
      ok := awaitingChallenge && code != "";
      if ok {
        Await(false);
        RunInThread(Challenging(cccSessionId));
        Observe(ChallengeSent(cccSessionId));
      }
      if before.phase == Attempt {
        Taken(Step.NewSecrets(code), before);
      }
    }

    /** `snx_vpn_disconnect`. */
    method Disconnect()
      requires Valid() && Enabled(State(), Step.Disconnect)
      modifies this
      ensures Valid() && run == old(run) + [Step.Disconnect]
    {
      hide Cancel, Teardown, Record, After;
      ghost var before := State();
      CancelInflightTask();
      TeardownTunnel();
      Observe(Disconnected);
      Enter(Idle);
      Taken(Step.Disconnect, before);
    }

    /** `on_term_signal`. */
    method OnTermSignal()
      requires Valid() && Enabled(State(), Step.Terminate)
      modifies this
      ensures Valid() && run == old(run) + [Step.Terminate]
    {
      hide Cancel, Teardown, Record, After;
      ghost var before := State();
      CancelInflightTask();
      TeardownTunnel();
      Observe(Disconnected);
      Enter(Quit);
      Taken(Step.Terminate, before);
    }

    /** `on_plugin_quit`: ends the main loop and nothing else. */
    method OnPluginQuit()
      requires Valid() && Enabled(State(), Step.PeerQuit)
      modifies this
      ensures Valid() && run == old(run) + [Step.PeerQuit]
    {
      hide After;
      ghost var before := State();
      phase := Quit;
      Taken(Step.PeerQuit, before);
    }

    /** `snx_vpn_plugin_finalize`. */
    method Finalize()
      requires Valid() && Enabled(State(), Step.Finalize)
      modifies this
      ensures Valid() && run == old(run) + [Step.Finalize]
    {
      hide After, Reset;
      ghost var before := State();
      ResetPluginState();
      Taken(Step.Finalize, before);
    }

    /** `on_auth_done`, for task `i`: a cancelled result is dropped; `failed` says that failure is reported. */
    method OnAuthDone(i: nat) returns (failed: bool)
      requires Valid() && Enabled(State(), Step.Deliver(i, true, true, 0)) && tasks[i].stage.AuthReturned?
      modifies this
      ensures Valid() && run == old(run) + [Step.Deliver(i, true, true, 0)]
      ensures var s, reply := old(State()), old(tasks[i].stage.reply);
              if Cancelled(s, s.tasks[i]) then !failed && State() == SetStage(s, i, Delivered)
              else if reply.None? then failed && State() == SetStage(s, i, Delivered)
              else
                && ReplySeen(SetStage(s, i, Delivered), reply.value, State())
                && (failed <==> reply.value.status != Some("continue")
                                && !(reply.value.status == Some("done") && reply.value.authenticated
                                     && reply.value.key.Some?))
    {
      hide After, AuthNext, FinishNext, Reached, ReplySeen;
      ghost var before := State();
      RunsReach(run);
      var task := tasks[i];
      if !Cancelled(before, before.tasks[i]) && task.stage.reply.Some? {
        ReplyOutcome(before, i, task.stage.reply.value, true, true, 0);
      }
      Move(i, Delivered);
      if task.token.Some? && task.token.value in world.cancelled {
        failed := false;
      } else if task.stage.reply.None? {
        failed := true;
      } else {
        failed := AcceptReply(task.stage.reply.value);
      }
      Taken(Step.Deliver(i, true, true, 0), before);
    }

    /** `on_tunnel_done`, for task `i`: a cancelled result is dropped; `failed` as above. */
    method OnTunnelDone(i: nat, valid: bool, wakeOk: bool, keepalive: nat) returns (failed: bool)
      requires Valid() && Enabled(State(), Step.Deliver(i, valid, wakeOk, keepalive)) && tasks[i].stage.TunnelReturned?
      modifies this
      ensures Valid() && run == old(run) + [Step.Deliver(i, valid, wakeOk, keepalive)]
      ensures var s, published := old(State()), old(tasks[i].stage.published);
              if Cancelled(s, s.tasks[i]) then !failed && State() == SetStage(s, i, Delivered)
              else if !published then failed && State() == SetStage(s, i, Delivered)
              else
                && TunnelSeen(SetStage(s, i, Delivered), valid, wakeOk, keepalive, State())
                && (failed <==> !valid || s.p.gatewayIp.None? || Pton(s.p.gatewayIp.value).None?)
    {
      hide After, AuthNext, FinishNext, Reached, TunnelSeen, Pton;
      ghost var before := State();
      RunsReach(run);
      var task := tasks[i];
      if !Cancelled(before, before.tasks[i]) && task.stage.published {
        TunnelOutcome(before, i, valid, wakeOk, keepalive);
      }
      Move(i, Delivered);
      if task.token.Some? && task.token.value in world.cancelled {
        failed := false;
      } else if !task.stage.published {
        failed := true;
      } else {
        failed := FinishConnect(valid, wakeOk, keepalive);
      }
      Taken(Step.Deliver(i, valid, wakeOk, keepalive), before);
    }

    /** A tick of the keepalive timer that gives up: the source removes itself. */
    method OnTimerGivesUp()
      requires Valid() && Enabled(State(), Step.TimerStops)
      modifies this
      ensures Valid() && run == old(run) + [Step.TimerStops]
    {
      hide After;
      ghost var before := State();
      Released(multiset{keepaliveSource.value});
      StoreTimer(None);
      Taken(Step.TimerStops, before);
    }

    // ---- the workers, piece by piece ----

    /** The end of `auth_thread_func`. */
    method AuthThreadReturns(i: nat, reply: Option<AuthReply>)
      requires Valid() && Enabled(State(), Step.AuthReturn(i, reply))
      modifies this
      ensures Valid() && run == old(run) + [Step.AuthReturn(i, reply)]
    {
      hide After;
      ghost var before := State();
      Move(i, AuthReturned(reply));
      Taken(Step.AuthReturn(i, reply), before);
    }

    /** `snx_ssl_tunnel_connect` returns to the worker. */
    method TunnelConnected(i: nat, ok: bool)
      requires Valid() && Enabled(State(), Step.Open(i, ok))
      modifies this
      ensures Valid() && run == old(run) + [Step.Open(i, ok)]
    {
      hide After;
      ghost var before := State();
      if ok {
        Move(i, Opened(world.nextId));
        world := world.(nextId := world.nextId + 1);
      } else {
        Move(i, TunnelReturned(false));
      }
      Taken(Step.Open(i, ok), before);
    }

    /** `snx_tun_create` returns to the worker; without a device the tunnel is freed. */
    method DeviceCreated(i: nat, ok: bool, name: string)
      requires Valid() && Enabled(State(), Step.Create(i, ok, name))
      modifies this
      ensures Valid() && run == old(run) + [Step.Create(i, ok, name)]
    {
      hide After;
      ghost var before := State();
      var open := tasks[i].stage.tunnel;
      if ok {
        Move(i, Created(open, world.nextId, name, None, false));
        world := world.(nextId := world.nextId + 1);
      } else {
        Move(i, TunnelReturned(false));
        world := world.(released := world.released + multiset{open});
      }
      Taken(Step.Create(i, ok, name), before);
    }

    /** `configure_interface` reads the gateway address. */
    method ReadGatewayIp(i: nat)
      requires Valid() && Enabled(State(), Step.ReadGateway(i))
      modifies this
      ensures Valid() && run == old(run) + [Step.ReadGateway(i)]
    {
      hide After, Pton;
      ghost var before := State();
      Move(i, tasks[i].stage.(gateway := Pton(gatewayIp.value)));
      Taken(Step.ReadGateway(i), before);
    }

    /** The kernel adds the route, or replaces another one to the same address. */
    method RouteAdd(route: Bypass)
      modifies `world
      ensures var w := old(world);
              world == w.(added := w.added + multiset{route}, overwritten := w.overwritten + One(old(RecordedRoute())),
                          routes := w.routes[route.dest := route])
    {
      world := world.(added := world.added + multiset{route}, overwritten := world.overwritten + One(RecordedRoute()),
                      routes := world.routes[route.dest := route]);
    }

    method RecordRoute(route: Bypass)
      modifies `bypassRouteActive, `bypassRouteIfname, `bypassRouteDest, `bypassRouteGateway
      ensures RecordedRoute() == Some(route)
    {
      bypassRouteActive := true;
      bypassRouteIfname, bypassRouteDest, bypassRouteGateway := route.ifname, route.dest, route.gateway;
    }

    /** The part of `configure_interface` that must not be interrupted. */
    method AddBypassRoute(i: nat, ifname: string, via: word)
      requires Valid() && Enabled(State(), Step.AddBypass(i, ifname, via))
      modifies this
      ensures Valid() && run == old(run) + [Step.AddBypass(i, ifname, via)]
    {
      hide After, RecordedRoute, One;
      ghost var before := State();
      var route := Bypass(ifname, tasks[i].stage.gateway.value, via);
      RouteAdd(route);
      RecordRoute(route);
      Move(i, tasks[i].stage.(bypassed := true));
      Taken(Step.AddBypass(i, ifname, via), before);
    }

    /** `configure_interface` returns to the worker; after a failure both are given back. */
    method InterfaceConfigured(i: nat, ok: bool)
      requires Valid() && Enabled(State(), Step.Configure(i, ok))
      modifies this
      ensures Valid() && run == old(run) + [Step.Configure(i, ok)]
    {
      hide After;
      ghost var before := State();
      var c := tasks[i].stage;
      if ok {
        Move(i, Configured(c.tunnel, c.fd, c.name));
      } else {
        Move(i, TunnelReturned(false));
        GiveBack(c.tunnel, c.fd);
      }
      Taken(Step.Configure(i, ok), before);
    }

    method Released(ids: multiset<nat>)
      modifies `world
      ensures State() == Session.Release(old(State()), ids)
    {
      hide RecordedRoute;
      world := world.(released := world.released + ids);
    }

    /** Closes the descriptor and frees the tunnel of a worker. */
    method GiveBack(open: nat, fd: nat)
      modifies `world
      ensures State() == Session.Release(old(State()), Both(open, fd))
    {
      Released(multiset{open} + multiset{fd});
    }

    /** The three fields in which a tunnel is published. */
    method StoreTunnel(stage: Stage)
      requires stage.Configured?
      modifies `tunnel, `tunFd, `tunName
      ensures var p := old(State()).p;
              State() == old(State()).(p := p.(tunnel := Some(stage.tunnel), tunFd := Some(stage.fd),
                                               tunName := Some(stage.name)))
    {
      hide RecordedRoute;
      tunnel, tunFd, tunName := Some(stage.tunnel), Some(stage.fd), Some(stage.name);
    }

    /** The end of `tunnel_thread_func`. */
    method CheckAndPublish(i: nat)
      requires Valid() && Enabled(State(), Step.Publish(i))
      modifies this
      ensures Valid() && run == old(run) + [Step.Publish(i)]
    {
      hide After, Both, RecordedRoute;
      ghost var before := State();
      var task := tasks[i];
      if task.token.Some? && task.token.value in world.cancelled {
        Move(i, TunnelReturned(false));
        GiveBack(task.stage.tunnel, task.stage.fd);
      } else {
        StoreTunnel(task.stage);
        Move(i, TunnelReturned(true));
      }
      Taken(Step.Publish(i), before);
    }
  }
}
