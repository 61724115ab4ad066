/**
  The session machine of `nm-snx-service.c`: the plugin object, the cancellable workers and
  the main loop callbacks, as one state that takes one step at a time.

  Three things happen in one step each, as the source relies on them doing: the check for
  cancellation together with the publication of the tunnel, adding a bypass route together
  with recording it, and a callback of the main loop with everything it calls.
 */
module Session {
  import opened Wrappers
  import opened Bits
  import opened Ipv4Text

  // ---- what the plugin deals with ----

  datatype Gateway = Gateway(port: nat, ip: Option<string>)

  /** The outcome of a login or challenge request; only a login discovers the gateway. */
  datatype AuthReply = AuthReply(info: Option<Gateway>, status: Option<string>, authenticated: bool,
                                 key: Option<string>, sessionId: Option<string>)

  /** What a gateway bypass route is added and deleted with; its prefix is always 32. */
  datatype Bypass = Bypass(ifname: string, dest: word, gateway: word)

  /** The fields of the plugin object. Tunnels, descriptors, threads and timers are numbered. */
  datatype Fields = Fields(
    cancellable: Option<nat>,
    awaitingChallenge: bool, sessionId: Option<string>, tcptPort: nat, gatewayIp: Option<string>,
    tunnel: Option<nat>, tunFd: Option<nat>, tunName: Option<string>,
    wakeFd: Option<nat>, uplink: Option<nat>, downlink: Option<nat>, timer: Option<nat>,
    bypass: Option<Bypass>)

  /**
    How far a worker is, and what it holds. While the interface is configured it may read the
    gateway address from the plugin, and later add the bypass route for the address it read.
   */
  datatype Stage =
    | LoggingIn
    | Challenging(sid: Option<string>)
    | AuthReturned(reply: Option<AuthReply>)
    | Connecting(port: nat, key: string)
    | Opened(tunnel: nat)
    | Created(tunnel: nat, fd: nat, name: string, gateway: Option<word>, bypassed: bool)
    | Configured(tunnel: nat, fd: nat, name: string)
    | TunnelReturned(published: bool)
    | Delivered

  /** A task and the cancellable it was given, if there was one. */
  datatype Task = Task(token: Option<nat>, stage: Stage)

  /** What an observer of one attempt sees. A reply is seen when its callback accepts it. */
  datatype Event =
    | Connected
    | Disconnected
    | Replied(reply: AuthReply)
    | ChallengeSent(sid: Option<string>)
    | TunnelStarted(port: nat, key: string)
    | ConfigSet(ip: string)

  /** The counters and ledgers around the plugin, and the kernel's table of the bypass routes. */
  datatype World = World(nextToken: nat, cancelled: set<nat>, nextId: nat, released: multiset<nat>,
                         added: multiset<Bypass>, deleted: multiset<Bypass>, overwritten: multiset<Bypass>,
                         routes: map<word, Bypass>, history: seq<Event>)

  /** Secrets arrive only during an attempt; after `Quit` the main loop runs no callback. */
  datatype Phase = Idle | Attempt | Quit

  datatype State = State(p: Fields, w: World, tasks: seq<Task>, phase: Phase)

  function InitFields(): Fields
  {
    Fields(None, false, None, 0, None, None, None, None, None, None, None, None, None)
  }

  function Init(): State
  {
    State(InitFields(), World(0, {}, 0, multiset{}, multiset{}, multiset{}, multiset{}, map[], []), [], Idle)
  }

  // ---- the callbacks ----

  function One<T>(x: Option<T>): multiset<T>
  {
    if x.Some? then multiset{x.value} else multiset{}
  }

  function Both(tunnel: nat, fd: nat): multiset<nat> { multiset{tunnel} + multiset{fd} }

  /** Everything in the runtime fields that has to be given back. */
  function FieldsHold(p: Fields): multiset<nat>
  {
    One(p.tunnel) + One(p.tunFd) + One(p.wakeFd) + One(p.uplink) + One(p.downlink) + One(p.timer)
  }

  function Record(s: State, e: Event): State
  {
    s.(w := s.w.(history := s.w.history + [e]))
  }

  function Start(s: State, stage: Stage): State
  {
    s.(tasks := s.tasks + [Task(s.p.cancellable, stage)])
  }

  /** `cancel_inflight_task`. */
  function Cancel(s: State): State
  {
    match s.p.cancellable
    case None => s
    case Some(t) => s.(p := s.p.(cancellable := None), w := s.w.(cancelled := s.w.cancelled + {t}))
  }

  /** A route that is deleted leaves the table only if the table holds that very route. */
  function Unrouted(routes: map<word, Bypass>, b: Option<Bypass>): map<word, Bypass>
  {
    if b.Some? && b.value.dest in routes && routes[b.value.dest] == b.value then routes - {b.value.dest} else routes
  }

  /** `teardown_tunnel`, seen from outside. */
  function Teardown(s: State): State
  {
    s.(p := s.p.(tunnel := None, tunFd := None, tunName := None, wakeFd := None, uplink := None,
                 downlink := None, timer := None, bypass := None),
       w := s.w.(released := s.w.released + FieldsHold(s.p), deleted := s.w.deleted + One(s.p.bypass),
                 routes := Unrouted(s.w.routes, s.p.bypass)))
  }

  /** `reset_plugin_state`. */
  function Reset(s: State): State
  {
    var t := Teardown(Cancel(s));
    t.(p := t.p.(awaitingChallenge := false, sessionId := None, tcptPort := 0, gatewayIp := None))
  }

  /** `snx_vpn_connect`; a configuration that is rejected starts no task. */
  function ConnectNext(s: State, configOk: bool): State
  {
    var r := Reset(s);
    var t := Record(r.(p := r.p.(cancellable := Some(r.w.nextToken)), w := r.w.(nextToken := r.w.nextToken + 1),
                       phase := Attempt), Connected);
    if configOk then Start(t, LoggingIn) else t
  }

  /** `snx_vpn_disconnect`, and `on_term_signal`, which also ends the main loop. */
  function StopNext(s: State, quit: bool): State
  {
    Record(Teardown(Cancel(s)), Disconnected).(phase := if quit then Quit else Idle)
  }

  /** `snx_vpn_new_secrets`: refused when no challenge is awaited or there is no code. */
  function SecretsNext(s: State, code: string): State
  {
    if !s.p.awaitingChallenge || code == "" then s
    else
      Record(Start(s.(p := s.p.(awaitingChallenge := false)), Challenging(s.p.sessionId)),
             ChallengeSent(s.p.sessionId))
  }

  /** The port is cut to 16 bits; a challenge's reply leaves port and address alone. */
  function StoreGateway(s: State, info: Option<Gateway>): State
  {
    match info
    case None => s
    case Some(g) => s.(p := s.p.(tcptPort := g.port % 0x1_0000, gatewayIp := g.ip))
  }

  /** `on_auth_done` for a result that was not cancelled. */
  function AuthNext(s: State, r: AuthReply): State
  {
    var u := StoreGateway(Record(s, Replied(r)), r.info);
    if r.status == Some("continue") then u.(p := u.p.(sessionId := r.sessionId, awaitingChallenge := true))
    else if r.status != Some("done") || !r.authenticated || r.key.None? then u
    else Record(Start(u, Connecting(u.p.tcptPort, r.key.value)), TunnelStarted(u.p.tcptPort, r.key.value))
  }

  /** `start_forwarding`; the wake descriptor can be missing. */
  function ForwardNext(s: State, wakeOk: bool, keepalive: nat): State
  {
    var first := if wakeOk then s.w.nextId + 1 else s.w.nextId;
    s.(p := s.p.(wakeFd := if wakeOk then Some(s.w.nextId) else None,
                 uplink := Some(first), downlink := Some(first + 1),
                 timer := if keepalive > 0 then Some(first + 2) else s.p.timer),
       w := s.w.(nextId := if keepalive > 0 then first + 3 else first + 2))
  }

  /** The address `snx_ipv4_to_nm_u32` reads from the field, if it can. */
  function GatewayAddress(p: Fields): Option<word>
  {
    if p.gatewayIp.None? then None else Pton(p.gatewayIp.value)
  }

  /** `finish_connect`; the gateway address, the routes or the IPv4 settings can be unusable. */
  function FinishNext(s: State, valid: bool, wakeOk: bool, keepalive: nat): State
  {
    if GatewayAddress(s.p).None? || !valid then Teardown(s)
    else ForwardNext(Record(s, ConfigSet(s.p.gatewayIp.value)), wakeOk, keepalive)
  }

  // ---- the workers ----

  predicate Cancelled(s: State, t: Task)
  {
    t.token.Some? && t.token.value in s.w.cancelled
  }

  function SetStage(s: State, i: nat, stage: Stage): State
    requires i < |s.tasks|
  {
    s.(tasks := s.tasks[i := s.tasks[i].(stage := stage)])
  }

  function Release(s: State, ids: multiset<nat>): State
  {
    s.(w := s.w.(released := s.w.released + ids))
  }

  function Allocate(s: State): State
  {
    s.(w := s.w.(nextId := s.w.nextId + 1))
  }

  function OpenNext(s: State, i: nat, ok: bool): State
    requires i < |s.tasks|
  {
    if ok then Allocate(SetStage(s, i, Opened(s.w.nextId))) else SetStage(s, i, TunnelReturned(false))
  }

  function CreateNext(s: State, i: nat, ok: bool, name: string): State
    requires i < |s.tasks| && s.tasks[i].stage.Opened?
  {
    var t := s.tasks[i].stage.tunnel;
    if ok then Allocate(SetStage(s, i, Created(t, s.w.nextId, name, None, false)))
    else Release(SetStage(s, i, TunnelReturned(false)), multiset{t})
  }

  /** The worker reads the gateway address that the plugin holds now. */
  function ReadNext(s: State, i: nat): State
    requires i < |s.tasks| && s.tasks[i].stage.Created?
  {
    SetStage(s, i, s.tasks[i].stage.(gateway := GatewayAddress(s.p)))
  }

  /**
    The bypass route is added to the kernel and recorded in the plugin. The request says to
    create or to replace, so the route takes the place of one to the same address.
   */
  function BypassNext(s: State, i: nat, b: Bypass): State
    requires i < |s.tasks| && s.tasks[i].stage.Created?
  {
    SetStage(s, i, s.tasks[i].stage.(bypassed := true))
    .(p := s.p.(bypass := Some(b)),
       w := s.w.(added := s.w.added + multiset{b}, overwritten := s.w.overwritten + One(s.p.bypass),
                 routes := s.w.routes[b.dest := b]))
  }

  function ConfigureNext(s: State, i: nat, ok: bool): State
    requires i < |s.tasks| && s.tasks[i].stage.Created?
  {
    var c := s.tasks[i].stage;
    if ok then SetStage(s, i, Configured(c.tunnel, c.fd, c.name))
    else Release(SetStage(s, i, TunnelReturned(false)), Both(c.tunnel, c.fd))
  }

  /** The end of `tunnel_thread_func`: undo everything if cancelled, otherwise publish. */
  function PublishNext(s: State, i: nat): State
    requires i < |s.tasks| && s.tasks[i].stage.Configured?
  {
    var c := s.tasks[i].stage;
    if Cancelled(s, s.tasks[i]) then Release(SetStage(s, i, TunnelReturned(false)), Both(c.tunnel, c.fd))
    else
      SetStage(s.(p := s.p.(tunnel := Some(c.tunnel), tunFd := Some(c.fd), tunName := Some(c.name))),
               i, TunnelReturned(true))
  }

  /** The callback of a task that has returned. A result whose task was cancelled is dropped. */
  function DeliverNext(s: State, i: nat, valid: bool, wakeOk: bool, keepalive: nat): State
    requires i < |s.tasks| && (s.tasks[i].stage.AuthReturned? || s.tasks[i].stage.TunnelReturned?)
  {
    var t := SetStage(s, i, Delivered);
    if Cancelled(s, s.tasks[i]) then t
    else
      match s.tasks[i].stage
      case AuthReturned(None) => t
      case AuthReturned(Some(r)) => AuthNext(t, r)
      case TunnelReturned(published) => if published then FinishNext(t, valid, wakeOk, keepalive) else t
  }

  /** A tick that gives up: the source removes itself. */
  function TimerStopNext(s: State): State
  {
    Release(s.(p := s.p.(timer := None)), One(s.p.timer))
  }

  // ---- runs ----

  datatype Step =
    | Connect(configOk: bool)
    | NewSecrets(code: string)
    | Disconnect
    | Terminate
    | PeerQuit
    | Finalize
    | AuthReturn(i: nat, reply: Option<AuthReply>)
    | Open(i: nat, ok: bool)
    | Create(i: nat, ok: bool, name: string)
    | ReadGateway(i: nat)
    | AddBypass(i: nat, ifname: string, via: word)
    | Configure(i: nat, ok: bool)
    | Publish(i: nat)
    | Deliver(i: nat, valid: bool, wakeOk: bool, keepalive: nat)
    | TimerStops

  /** A step of a worker, which runs beside the main loop. */
  predicate WorkerStep(step: Step)
  {
    step.AuthReturn? || step.Open? || step.Create? || step.ReadGateway? || step.AddBypass? || step.Configure?
    || step.Publish?
  }

  predicate At(s: State, i: nat)
  {
    i < |s.tasks|
  }

  predicate Enabled(s: State, step: Step)
  {
    match step
    case Connect(_) => s.phase != Quit
    case NewSecrets(_) => s.phase == Attempt
    case Disconnect => s.phase != Quit
    case Terminate => s.phase != Quit
    case PeerQuit => s.phase != Quit
    // Every task holds a reference to the plugin until its callback has run.
    case Finalize => s.phase == Quit && forall t :: t in s.tasks ==> t.stage.Delivered?
    case AuthReturn(i, reply) =>
      At(s, i) && (if s.tasks[i].stage.LoggingIn? then reply.Some? ==> reply.value.info.Some?
                   else s.tasks[i].stage.Challenging? && (reply.Some? ==> reply.value.info.None?))
    case Open(i, _) => At(s, i) && s.tasks[i].stage.Connecting?
    case Create(i, _, _) => At(s, i) && s.tasks[i].stage.Opened?
    case ReadGateway(i) =>
      At(s, i) && s.tasks[i].stage.Created? && s.tasks[i].stage.gateway.None? && GatewayAddress(s.p).Some?
    case AddBypass(i, _, _) =>
      At(s, i) && s.tasks[i].stage.Created? && s.tasks[i].stage.gateway.Some? && !s.tasks[i].stage.bypassed
    case Configure(i, _) => At(s, i) && s.tasks[i].stage.Created?
    case Publish(i) => At(s, i) && s.tasks[i].stage.Configured?
    case Deliver(i, _, _, _) =>
      s.phase != Quit && At(s, i) && (s.tasks[i].stage.AuthReturned? || s.tasks[i].stage.TunnelReturned?)
    case TimerStops => s.phase != Quit && s.p.timer.Some?
  }

  /** The route a worker adds: interface and next hop are the kernel's answer for the address. */
  function RouteOf(s: State, step: Step): Bypass
    requires step.AddBypass? && Enabled(s, step)
  {
    Bypass(step.ifname, s.tasks[step.i].stage.gateway.value, step.via)
  }

  function Next(s: State, step: Step): State
    requires Enabled(s, step)
  {
    match step
    case Connect(configOk) => ConnectNext(s, configOk)
    case NewSecrets(code) => SecretsNext(s, code)
    case Disconnect => StopNext(s, false)
    case Terminate => StopNext(s, true)
    case PeerQuit => s.(phase := Quit)
    case Finalize => Reset(s)
    case AuthReturn(i, reply) => SetStage(s, i, AuthReturned(reply))
    case Open(i, ok) => OpenNext(s, i, ok)
    case Create(i, ok, name) => CreateNext(s, i, ok, name)
    case ReadGateway(i) => ReadNext(s, i)
    case AddBypass(i, _, _) => BypassNext(s, i, RouteOf(s, step))
    case Configure(i, ok) => ConfigureNext(s, i, ok)
    case Publish(i) => PublishNext(s, i)
    case Deliver(i, valid, wakeOk, keepalive) => DeliverNext(s, i, valid, wakeOk, keepalive)
    case TimerStops => TimerStopNext(s)
  }

  /** A worker moves itself on, and touches nothing of the attempt. */
  lemma WorkerFrame(s: State, step: Step)
    requires Enabled(s, step) && WorkerStep(step)
    ensures var t := Next(s, step);
            && |t.tasks| == |s.tasks| && t.tasks == SetStage(s, step.i, t.tasks[step.i].stage).tasks
            && t.phase == s.phase && t.w.cancelled == s.w.cancelled && t.w.history == s.w.history
            && t.p.cancellable == s.p.cancellable && t.p.awaitingChallenge == s.p.awaitingChallenge
            && t.p.sessionId == s.p.sessionId && t.p.tcptPort == s.p.tcptPort && t.p.gatewayIp == s.p.gatewayIp
  {
    hide Next;
    TasksFrame(s, step);
    FieldsFrame(s, step);
  }

  lemma TasksFrame(s: State, step: Step)
    requires Enabled(s, step) && WorkerStep(step)
    ensures var t := Next(s, step);
            |t.tasks| == |s.tasks| && t.tasks == SetStage(s, step.i, t.tasks[step.i].stage).tasks
  {
    hide GatewayAddress, One, Both, Cancelled;
  }

  lemma FieldsFrame(s: State, step: Step)
    requires Enabled(s, step) && WorkerStep(step)
    ensures var t := Next(s, step);
            && t.phase == s.phase && t.w.cancelled == s.w.cancelled && t.w.history == s.w.history
            && t.p.cancellable == s.p.cancellable && t.p.awaitingChallenge == s.p.awaitingChallenge
            && t.p.sessionId == s.p.sessionId && t.p.tcptPort == s.p.tcptPort && t.p.gatewayIp == s.p.gatewayIp
  {
    hide GatewayAddress, One, Both, Cancelled;
  }

  /** The state a sequence of steps leads to, if each of them can be taken. */
  function After(run: seq<Step>): Option<State>
  {
    if run == [] then Some(Init())
    else
      match After(run[..|run| - 1])
      case None => None
      case Some(s) => if Enabled(s, run[|run| - 1]) then Some(Next(s, run[|run| - 1])) else None
  }

  lemma AfterStep(run: seq<Step>, step: Step)
    requires After(run).Some? && Enabled(After(run).value, step)
    ensures After(run + [step]) == Some(Next(After(run).value, step))
  {
    hide Enabled, Next;
    assert (run + [step])[..|run|] == run;
  }
}
