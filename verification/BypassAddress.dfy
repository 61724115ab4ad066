/**
  The address of a bypass route. The worker reads it from the plugin while it configures the
  interface, so it belongs to the attempt that is going on then, or went on last.
 */
module BypassAddress {
  import opened Wrappers
  import opened Bits
  import opened Ipv4Text
  import opened Session
  import opened Conservation
  import opened AuthSafety

  /** The gateway address of a discovery, read as `snx_ipv4_to_nm_u32` reads it. */
  predicate Names(g: Gateway, address: word) { g.ip.Some? && Pton(g.ip.value) == Some(address) }

  /**
    A worker that has not been cancelled adds its bypass route for the address that its own
    attempt discovered.
   */
  lemma BypassUsesThisAttempt(run: seq<Step>, step: Step)
    requires After(run).Some? && step.AddBypass? && Enabled(After(run).value, step)
    requires !Cancelled(After(run).value, After(run).value.tasks[step.i])
    ensures var s := After(run).value;
            && Current(s.w.history).Some?
            && Discovered(Current(s.w.history).value).Some?
            && Names(Discovered(Current(s.w.history).value).value, RouteOf(s, step).dest)
  {
    hide Current, After, Pton, Inv, Follows;
    RunsFollow(run);
    RunsKeepInv(run);
    var s := After(run).value;
    assert Live(s, step.i);
    LiveFollows(s, step.i);
  }

  // ---- the attempt that is going on, or went on last ----

  /** The events since the last `Connected`, also after a `Disconnected`. */
  function Latest(h: seq<Event>): Option<seq<Event>>
  {
    if h == [] then None
    else if h[|h| - 1].Connected? then Some([])
    else
      match Latest(h[..|h| - 1])
      case None => None
      case Some(c) => Some(c + [h[|h| - 1]])
  }

  /** The gateway discovered by that attempt. */
  function Found(h: seq<Event>): Option<Gateway>
  {
    match Latest(h)
    case None => None
    case Some(c) => Discovered(c)
  }

  /** How many attempts there have been. */
  function Attempts(h: seq<Event>): nat
  {
    if h == [] then 0 else Attempts(h[..|h| - 1]) + if h[|h| - 1].Connected? then 1 else 0
  }

  lemma LatestAppend(h: seq<Event>, e: Event)
    ensures Latest(h + [e]) == if e.Connected? then Some([])
                               else match Latest(h) case None => None case Some(c) => Some(c + [e])
    ensures Attempts(h + [e]) == Attempts(h) + if e.Connected? then 1 else 0
  {
    assert (h + [e])[..|h|] == h;
  }

  /** Nothing but a first reply changes what an attempt has discovered. */
  lemma FoundAppend(h: seq<Event>, e: Event)
    requires !e.Connected? && (e.Replied? ==> Latest(h) != Some([]))
    ensures Found(h + [e]) == Found(h) && Attempts(h + [e]) == Attempts(h)
  {
    LatestAppend(h, e);
    if Latest(h).Some? && Latest(h).value != [] {
      assert (Latest(h).value + [e])[0] == Latest(h).value[0];
    }
  }

  lemma {:induction false} CurrentIsLatest(h: seq<Event>)
    requires Current(h).Some?
    ensures Latest(h) == Current(h)
  {
    if !h[|h| - 1].Connected? {
      CurrentIsLatest(h[..|h| - 1]);
    }
  }

  // ---- the plugin knows what the latest attempt discovered ----

  predicate KnowsLatest(s: State)
  {
    s.p.gatewayIp.Some? ==> Found(s.w.history).Some? && Found(s.w.history).value.ip == s.p.gatewayIp
  }

  /** At most one event is added, which discovers nothing, and no address appears. */
  lemma QuietKnows(s: State, t: State, news: Option<Event>)
    requires KnowsLatest(s) && (t.p.gatewayIp == None || t.p.gatewayIp == s.p.gatewayIp)
    requires news.Some? ==> !news.value.Connected? && !news.value.Replied?
    requires t.w.history == if news.Some? then s.w.history + [news.value] else s.w.history
    ensures KnowsLatest(t) && Found(t.w.history) == Found(s.w.history)
    ensures Attempts(t.w.history) == Attempts(s.w.history)
  {
    hide Found;
    if news.Some? {
      FoundAppend(s.w.history, news.value);
    }
  }

  /** A first reply discovers; a later one, after a challenge, leaves the discovery alone. */
  lemma ReplyKnows(s: State, r: AuthReply)
    requires KnowsLatest(s) && Current(s.w.history).Some?
    requires StageFits(s.p, Current(s.w.history).value, AuthReturned(Some(r)))
    ensures KnowsLatest(AuthNext(s, r)) && Attempts(AuthNext(s, r).w.history) == Attempts(s.w.history)
  {
    hide Found, Latest, Current, Attempts;
    var h, t := s.w.history, AuthNext(s, r);
    var g := h + [Replied(r)];
    CurrentIsLatest(h);
    LatestAppend(h, Replied(r));
    if r.info.Some? {
      FirstFinds(g, r);
    } else {
      FoundAppend(h, Replied(r));
    }
    if t.w.history != g {
      var e := t.w.history[|g|];
      assert t.w.history == g + [e];
      FoundAppend(g, e);
    }
  }

  lemma FirstFinds(h: seq<Event>, r: AuthReply)
    requires Latest(h) == Some([] + [Replied(r)])
    ensures Found(h) == r.info
  {
    hide Latest;
  }

  lemma DeliverKnows(s: State, i: nat, valid: bool, wakeOk: bool, keepalive: nat)
    requires Inv(s) && Follows(s) && KnowsLatest(s) && Enabled(s, Deliver(i, valid, wakeOk, keepalive))
    ensures var t := DeliverNext(s, i, valid, wakeOk, keepalive);
            KnowsLatest(t) && Attempts(t.w.history) == Attempts(s.w.history)
  {
    hide Inv, Follows, KnowsLatest, AuthNext, FieldsHold, Current, StageFits, Attempts;
    var t := SetStage(s, i, Delivered);
    QuietKnows(s, t, None);
    if !Cancelled(s, s.tasks[i]) {
      assert Live(s, i);
      LiveFollows(s, i);
      match s.tasks[i].stage
      case AuthReturned(Some(r)) => ReplyKnows(t, r);
      case TunnelReturned(true) => FinishKnows(t, valid, wakeOk, keepalive);
      case _ =>
    }
  }

  lemma FinishKnows(s: State, valid: bool, wakeOk: bool, keepalive: nat)
    requires KnowsLatest(s)
    ensures var t := FinishNext(s, valid, wakeOk, keepalive);
            KnowsLatest(t) && Attempts(t.w.history) == Attempts(s.w.history)
  {
    hide KnowsLatest, FieldsHold, Attempts, Unrouted, Pton;
    var kept := GatewayAddress(s.p).Some? && valid;
    QuietKnows(s, FinishNext(s, valid, wakeOk, keepalive), if kept then Some(ConfigSet(s.p.gatewayIp.value)) else None);
  }

  lemma StepKnows(s: State, step: Step)
    requires Inv(s) && Follows(s) && KnowsLatest(s) && Enabled(s, step)
    ensures KnowsLatest(Next(s, step))
    ensures Attempts(Next(s, step).w.history) == Attempts(s.w.history) + if step.Connect? then 1 else 0
  {
    hide Inv, Follows, KnowsLatest, Attempts, DeliverNext, ConnectNext, SecretsNext, StopNext, Reset,
      OpenNext, CreateNext, ReadNext, BypassNext, ConfigureNext, PublishNext, TimerStopNext;
    match step
    case Deliver(i, valid, wakeOk, keepalive) => DeliverKnows(s, i, valid, wakeOk, keepalive);
    case Connect(configOk) => ConnectKnows(s, configOk);
    case NewSecrets(code) => SecretsKnow(s, code);
    case Disconnect => StopKnows(s, false);
    case Terminate => StopKnows(s, true);
    case PeerQuit => QuietKnows(s, s.(phase := Quit), None);
    case Finalize =>
      ResetHistory(s);
      ResetForgets(s);
      QuietKnows(s, Reset(s), None);
    case TimerStops => TimerKnows(s);
    case _ => WorkerKnows(s, step);
  }

  lemma SecretsKnow(s: State, code: string)
    requires KnowsLatest(s)
    ensures KnowsLatest(SecretsNext(s, code))
    ensures Attempts(SecretsNext(s, code).w.history) == Attempts(s.w.history)
    ensures Found(SecretsNext(s, code).w.history) == Found(s.w.history)
  {
    hide KnowsLatest, Attempts, Found;
    var sent := s.p.awaitingChallenge && code != "";
    QuietKnows(s, SecretsNext(s, code), if sent then Some(ChallengeSent(s.p.sessionId)) else None);
  }

  lemma StopKnows(s: State, quit: bool)
    requires KnowsLatest(s)
    ensures KnowsLatest(StopNext(s, quit))
    ensures Attempts(StopNext(s, quit).w.history) == Attempts(s.w.history)
    ensures Found(StopNext(s, quit).w.history) == Found(s.w.history)
  {
    hide KnowsLatest, Attempts, Found, FieldsHold, One, Unrouted;
    QuietKnows(s, StopNext(s, quit), Some(Disconnected));
  }

  lemma TimerKnows(s: State)
    requires KnowsLatest(s)
    ensures KnowsLatest(TimerStopNext(s)) && TimerStopNext(s).w.history == s.w.history
  {
    hide One;
  }

  /** A worker touches neither the address nor the history. */
  lemma WorkerKnows(s: State, step: Step)
    requires KnowsLatest(s) && Enabled(s, step)
    requires WorkerStep(step)
    ensures KnowsLatest(Next(s, step)) && Next(s, step).w.history == s.w.history
  {
    hide Found, Next;
    WorkerFrame(s, step);
  }

  lemma ConnectKnows(s: State, configOk: bool)
    ensures KnowsLatest(ConnectNext(s, configOk))
    ensures Attempts(ConnectNext(s, configOk).w.history) == Attempts(s.w.history) + 1
  {
    hide Attempts, Reset;
    ResetHistory(s);
    ResetForgets(s);
    LatestAppend(s.w.history, Connected);
  }

  lemma ResetForgets(s: State)
    ensures Reset(s).p.gatewayIp == None
  {
  }

  lemma {:induction false} RunsKnow(run: seq<Step>)
    requires After(run).Some?
    ensures KnowsLatest(After(run).value)
    decreases |run|
  {
    hide Inv, Follows, KnowsLatest, Enabled, Next;
    if run == [] {
      NothingKnown();
    } else {
      var before := run[..|run| - 1];
      RunsKeepInv(before);
      RunsFollow(before);
      RunsKnow(before);
      StepKnows(After(before).value, run[|run| - 1]);
    }
  }

  lemma NothingKnown()
    ensures KnowsLatest(Init())
  {
  }

  // ---- from the start of a worker to its read ----

  /** The `k`-th step starts the `i`-th task. */
  predicate Starts(run: seq<Step>, k: nat, i: nat)
  {
    && k < |run| && After(run[..k]).Some? && After(run[..k + 1]).Some?
    && |After(run[..k]).value.tasks| == i && |After(run[..k + 1]).value.tasks| == i + 1
  }

  predicate NoConnect(run: seq<Step>, k: nat, r: nat) { forall j :: k <= j < r && j < |run| ==> !run[j].Connect? }

  lemma {:induction false} Prefixes(run: seq<Step>, n: nat)
    requires After(run).Some? && n <= |run|
    ensures After(run[..n]).Some?
    decreases |run|
  {
    hide Enabled, Next;
    if n == |run| {
      assert run[..n] == run;
    } else {
      Prefixes(run[..|run| - 1], n);
      assert run[..|run| - 1][..n] == run[..n];
    }
  }

  /** The events up to the `n`-th step. */
  function Seen(run: seq<Step>, n: nat): seq<Event>
    requires After(run).Some? && n <= |run|
  {
    Prefixes(run, n);
    After(run[..n]).value.w.history
  }

  /** The worker has read its address, and may have gone on since. */
  predicate HasRead(stage: Stage)
  {
    (stage.Created? && stage.gateway.Some?) || stage.Configured? || stage.TunnelReturned? || stage.Delivered?
  }

  /** What a step does to the tasks that there are. */
  predicate TasksGrow(s: State, t: State, step: Step)
  {
    && |s.tasks| <= |t.tasks| <= |s.tasks| + 1
    && (|t.tasks| > |s.tasks| ==> !t.tasks[|s.tasks|].stage.Created?)
    && forall i: nat :: i < |s.tasks| ==> StageGrows(s, s.tasks[i].stage, t.tasks[i].stage, step == ReadGateway(i))
  }

  predicate StageGrows(s: State, a: Stage, b: Stage, readNow: bool)
  {
    && (OpeningTunnel(b) ==> OpeningTunnel(a))
    && (HasRead(a) ==> HasRead(b) && (b.Created? ==> a.Created? && a.gateway == b.gateway))
    && (b.Created? && b.gateway.Some? ==>
          a.Created? && if readNow then b.gateway == GatewayAddress(s.p) else a.gateway == b.gateway)
  }

  lemma OneGrows(s: State, t: State, i: nat, stage: Stage, step: Step)
    requires At(s, i) && t.tasks == SetStage(s, i, stage).tasks
    requires StageGrows(s, s.tasks[i].stage, stage, step == ReadGateway(i))
    requires step.ReadGateway? ==> step.i == i
    ensures TasksGrow(s, t, step)
  {
    hide GatewayAddress;
  }

  lemma SameGrow(s: State, t: State, step: Step)
    requires s.tasks <= t.tasks && |t.tasks| <= |s.tasks| + 1 && !step.ReadGateway?
    requires |t.tasks| > |s.tasks| ==> !t.tasks[|s.tasks|].stage.Created?
    ensures TasksGrow(s, t, step)
  {
    hide GatewayAddress;
  }

  lemma DeliverGrows(s: State, i: nat, valid: bool, wakeOk: bool, keepalive: nat)
    requires Enabled(s, Deliver(i, valid, wakeOk, keepalive))
    ensures TasksGrow(s, DeliverNext(s, i, valid, wakeOk, keepalive), Deliver(i, valid, wakeOk, keepalive))
  {
    hide TasksGrow, FieldsHold, Unrouted, GatewayAddress;
    var t, u := SetStage(s, i, Delivered), DeliverNext(s, i, valid, wakeOk, keepalive);
    var step := Deliver(i, valid, wakeOk, keepalive);
    OneGrows(s, t, i, Delivered, step);
    SameGrow(t, u, step);
    GrowTwice(s, t, u, step);
  }

  lemma GrowTwice(s: State, t: State, u: State, step: Step)
    requires TasksGrow(s, t, step) && t.tasks <= u.tasks && |t.tasks| == |s.tasks| && |u.tasks| <= |t.tasks| + 1
    requires |u.tasks| > |t.tasks| ==> !u.tasks[|t.tasks|].stage.Created?
    ensures TasksGrow(s, u, step)
  {
    hide StageGrows;
  }

  lemma StepGrows(s: State, step: Step)
    requires Enabled(s, step)
    ensures TasksGrow(s, Next(s, step), step)
  {
    hide TasksGrow, DeliverNext, FieldsHold, Unrouted, GatewayAddress, One, Both, Cancelled;
    var t := Next(s, step);
    match step
    case Deliver(i, valid, wakeOk, keepalive) => DeliverGrows(s, i, valid, wakeOk, keepalive);
    case Connect(_) => SameGrow(s, t, step);
    case NewSecrets(_) => SameGrow(s, t, step);
    case Disconnect => SameGrow(s, t, step);
    case Terminate => SameGrow(s, t, step);
    case PeerQuit => SameGrow(s, t, step);
    case Finalize => SameGrow(s, t, step);
    case TimerStops => SameGrow(s, t, step);
    case _ => WorkerGrows(s, step);
  }

  lemma WorkerGrows(s: State, step: Step)
    requires Enabled(s, step)
    requires WorkerStep(step)
    ensures TasksGrow(s, Next(s, step), step)
  {
    hide TasksGrow, Next, StageGrows;
    WorkerFrame(s, step);
    WorkerStageGrows(s, step);
    OneGrows(s, Next(s, step), step.i, Next(s, step).tasks[step.i].stage, step);
  }

  lemma WorkerStageGrows(s: State, step: Step)
    requires Enabled(s, step) && WorkerStep(step)
    ensures StageGrows(s, s.tasks[step.i].stage, Next(s, step).tasks[step.i].stage, step.ReadGateway?)
  {
    hide Both, One, GatewayAddress;
  }

  /** The step that started a task. */
  lemma {:induction false} WhenStarted(run: seq<Step>, i: nat) returns (k: nat)
    requires After(run).Some? && i < |After(run).value.tasks|
    ensures Starts(run, k, i)
    decreases |run|
  {
    hide Enabled, Next;
    var before := run[..|run| - 1];
    var s := After(before).value;
    StepGrows(s, run[|run| - 1]);
    if i < |s.tasks| {
      k := WhenStarted(before, i);
      assert before[..k] == run[..k] && before[..k + 1] == run[..k + 1];
    } else {
      k := |run| - 1;
      assert run[..k + 1] == run;
    }
  }

  /** The step in which a worker read the address that it holds. */
  lemma {:induction false} WhenRead(run: seq<Step>, i: nat) returns (r: nat)
    requires After(run).Some? && i < |After(run).value.tasks|
    requires var stage := After(run).value.tasks[i].stage; stage.Created? && stage.gateway.Some?
    ensures r < |run| && run[r] == ReadGateway(i)
    decreases |run|
  {
    hide Enabled, Next, StageGrows;
    var before := run[..|run| - 1];
    StepGrows(After(before).value, run[|run| - 1]);
    if run[|run| - 1] == ReadGateway(i) {
      r := |run| - 1;
    } else {
      ReadBefore(After(before).value, After(run).value, run[|run| - 1], i);
      r := WhenRead(before, i);
    }
  }

  lemma ReadBefore(s: State, t: State, step: Step, i: nat)
    requires TasksGrow(s, t, step) && i < |t.tasks| && step != ReadGateway(i)
    requires t.tasks[i].stage.Created? && t.tasks[i].stage.gateway.Some?
    ensures i < |s.tasks| && s.tasks[i].stage.Created? && s.tasks[i].stage.gateway == t.tasks[i].stage.gateway
  {
  }

  /** A worker that has read keeps the address, and never reads again. */
  lemma {:induction false} ReadIsKept(run: seq<Step>, r: nat, i: nat)
    requires After(run).Some? && r < |run| && run[r] == ReadGateway(i)
    ensures After(run[..r]).Some? && Enabled(After(run[..r]).value, run[r])
    ensures i < |After(run).value.tasks| && HasRead(After(run).value.tasks[i].stage)
    ensures var stage := After(run).value.tasks[i].stage;
            stage.Created? ==> stage.gateway == GatewayAddress(After(run[..r]).value.p)
    decreases |run|
  {
    hide Next, GatewayAddress;
    var before, step := run[..|run| - 1], run[|run| - 1];
    StepGrows(After(before).value, step);
    if r < |before| {
      ReadIsKept(before, r, i);
      assert before[..r] == run[..r];
    } else {
      ReadsNow(After(before).value, i);
    }
  }

  lemma ReadsNow(s: State, i: nat)
    requires Enabled(s, ReadGateway(i))
    ensures var t := Next(s, ReadGateway(i));
            i < |t.tasks| && HasRead(t.tasks[i].stage) && t.tasks[i].stage.gateway == GatewayAddress(s.p)
  {
  }

  // ---- no Connect in between ----

  /** The newest task opens a tunnel; as long as the attempt lasts it is the live one. */
  predicate Underway(s: State, i: nat)
  {
    |s.tasks| == i + 1 && OpeningTunnel(s.tasks[i].stage) && (s.phase == Attempt ==> Live(s, i))
  }

  lemma StartUnderway(s: State, step: Step)
    requires Inv(s) && Follows(s) && Enabled(s, step)
    requires |Next(s, step).tasks| == |s.tasks| + 1 && OpeningTunnel(Next(s, step).tasks[|s.tasks|].stage)
    ensures Underway(Next(s, step), |s.tasks|) && Current(Next(s, step).w.history).Some?
  {
    hide Inv, Follows, Current, FieldsHold, Unrouted, GatewayAddress;
    StepKeepsInv(s, step);
    StepFollows(s, step);
    if step.Deliver? && !Cancelled(s, s.tasks[step.i]) {
      LiveMeansAttempt(s, step.i);
    }
    NewestIsLive(Next(s, step));
  }

  lemma NewestIsLive(s: State)
    requires Inv(s) && Follows(s) && s.phase == Attempt
    requires s.tasks != [] && s.tasks[|s.tasks| - 1].token == s.p.cancellable
    requires OpeningTunnel(s.tasks[|s.tasks| - 1].stage)
    ensures Live(s, |s.tasks| - 1) && Current(s.w.history).Some?
  {
    hide Current, Safe;
  }

  /** As long as no Connect comes, nothing is discovered and no task is started. */
  lemma UnderwayStep(s: State, step: Step, i: nat)
    requires Inv(s) && Follows(s) && KnowsLatest(s) && Enabled(s, step) && Underway(s, i) && !step.Connect?
    requires OpeningTunnel(Next(s, step).tasks[i].stage)
    ensures Underway(Next(s, step), i) && Found(Next(s, step).w.history) == Found(s.w.history)
  {
    hide Inv, Follows, KnowsLatest, Found, Reset, StopNext, SecretsNext, DeliverNext, TimerStopNext, Live, OpenNext,
      CreateNext, ReadNext, BypassNext, ConfigureNext, PublishNext, GatewayAddress;
    var t := Next(s, step);
    match step
    case NewSecrets(code) =>
      NoSecretsUnderway(s, i);
      NoSecrets(s, code);
    case Disconnect =>
      StopKnows(s, false);
      StopTasks(s, false);
    case Terminate =>
      StopKnows(s, true);
      StopTasks(s, true);
    case Finalize =>
    case Deliver(j, valid, wakeOk, keepalive) => DeliverUnderway(s, j, valid, wakeOk, keepalive, i);
    case PeerQuit => UnderwayKept(s, t, i);
    case TimerStops =>
      TimerKnows(s);
      UnderwayKept(s, t, i) by { TimerTasks(s); }
    case _ =>
      WorkerKnows(s, step);
      WorkerUnderway(s, step, i);
  }

  lemma WorkerUnderway(s: State, step: Step, i: nat)
    requires Enabled(s, step) && Underway(s, i) && OpeningTunnel(Next(s, step).tasks[i].stage)
    requires WorkerStep(step)
    ensures Underway(Next(s, step), i)
  {
    hide Next, GatewayAddress;
    WorkerFrame(s, step);
    UnderwayKept(s, Next(s, step), i);
  }

  lemma UnderwayKept(s: State, t: State, i: nat)
    requires Underway(s, i) && |t.tasks| == |s.tasks| && OpeningTunnel(t.tasks[i].stage)
    requires t.phase == Attempt ==>
               s.phase == Attempt && t.tasks[i].token == s.tasks[i].token && t.w.cancelled == s.w.cancelled
    ensures Underway(t, i)
  {
  }

  lemma NoSecrets(s: State, code: string)
    requires !s.p.awaitingChallenge
    ensures SecretsNext(s, code) == s
  {
  }

  lemma StopTasks(s: State, quit: bool)
    ensures StopNext(s, quit).tasks == s.tasks && StopNext(s, quit).phase != Attempt
  {
  }

  lemma TimerTasks(s: State)
    ensures TimerStopNext(s).tasks == s.tasks && TimerStopNext(s).phase == s.phase
    ensures TimerStopNext(s).w.cancelled == s.w.cancelled
  {
  }

  /** Another task's callback finds its task cancelled. */
  lemma DeliverUnderway(s: State, j: nat, valid: bool, wakeOk: bool, keepalive: nat, i: nat)
    requires Inv(s) && Follows(s) && Underway(s, i) && Enabled(s, Deliver(j, valid, wakeOk, keepalive))
    ensures var t := DeliverNext(s, j, valid, wakeOk, keepalive);
            Underway(t, i) && t.w.history == s.w.history
  {
    hide Inv, Follows, AuthNext, FinishNext;
    if !Cancelled(s, s.tasks[j]) {
      LiveFollows(s, j);
      assert false;
    }
    UnderwayKept(s, DeliverNext(s, j, valid, wakeOk, keepalive), i);
  }

  lemma NoSecretsUnderway(s: State, i: nat)
    requires Inv(s) && Follows(s) && Underway(s, i) && s.phase == Attempt
    ensures !s.p.awaitingChallenge
  {
    hide Current, Safe;
  }

  /** The attempt of a worker has found what it will find when it starts the worker. */
  lemma {:induction false} OwnDiscovery(run: seq<Step>, k: nat, i: nat)
    requires After(run).Some? && Starts(run, k, i) && NoConnect(run, k + 1, |run|)
    requires i < |After(run).value.tasks| && OpeningTunnel(After(run).value.tasks[i].stage)
    ensures Underway(After(run).value, i)
    ensures Found(After(run).value.w.history) == Found(After(run[..k + 1]).value.w.history)
    ensures Current(After(run[..k + 1]).value.w.history).Some?
    decreases |run|
  {
    hide Inv, Follows, KnowsLatest, Found, Current, Enabled, Next, Underway;
    var before, step := run[..|run| - 1], run[|run| - 1];
    var s := After(before).value;
    RunsKeepInv(before);
    RunsFollow(before);
    assert run[..k] == before[..k];
    if k == |before| {
      assert run[..k + 1] == run && before[..k] == before;
      StartUnderway(s, step);
    } else {
      assert run[..k + 1] == before[..k + 1];
      StepGrows(s, step);
      StartedBefore(before, k, i);
      GrowsFrom(s, After(run).value, step, i);
      OwnDiscovery(before, k, i);
      RunsKnow(before);
      UnderwayStep(s, step, i);
    }
  }

  lemma GrowsFrom(s: State, t: State, step: Step, i: nat)
    requires TasksGrow(s, t, step) && i < |s.tasks| && OpeningTunnel(t.tasks[i].stage)
    ensures OpeningTunnel(s.tasks[i].stage)
  {
  }

  lemma {:induction false} StartedBefore(run: seq<Step>, k: nat, i: nat)
    requires After(run).Some? && Starts(run, k, i)
    ensures i < |After(run).value.tasks|
    decreases |run|
  {
    hide Enabled, Next;
    if k + 1 == |run| {
      assert run[..k + 1] == run;
    } else {
      var before := run[..|run| - 1];
      assert run[..k] == before[..k] && run[..k + 1] == before[..k + 1];
      StartedBefore(before, k, i);
      StepGrows(After(before).value, run[|run| - 1]);
    }
  }

  /** Attempts are counted by the Connects. */
  lemma {:induction false} AttemptsBetween(run: seq<Step>, k: nat)
    requires After(run).Some? && k <= |run|
    ensures After(run[..k]).Some?
    ensures var now, then_ := Attempts(After(run).value.w.history), Attempts(After(run[..k]).value.w.history);
            now >= then_ && (now == then_ <==> NoConnect(run, k, |run|))
    decreases |run|
  {
    hide Inv, Follows, KnowsLatest, Attempts, Enabled, Next;
    if k == |run| {
      assert run[..k] == run;
    } else {
      var before := run[..|run| - 1];
      assert run[..k] == before[..k];
      AttemptsBetween(before, k);
      RunsKeepInv(before);
      RunsFollow(before);
      RunsKnow(before);
      StepKnows(After(before).value, run[|run| - 1]);
      assert forall j :: k <= j < |before| ==> before[j] == run[j];
    }
  }

  // ---- the address ----

  /**
    Every bypass route, also one that a cancelled worker adds, is for the address that the
    attempt going on at the read has discovered, or the last one if none is going on. That is
    the attempt that started the worker if and only if no Connect came between the start and
    the read; then the address is what that attempt discovered, cancelled or not.
   */
  lemma BypassAddressExactly(run: seq<Step>, step: Step, k: nat, r: nat)
    requires After(run).Some? && step.AddBypass? && Enabled(After(run).value, step)
    requires Starts(run, k, step.i) && r < |run| && run[r] == ReadGateway(step.i)
    ensures k < r && Current(Seen(run, k + 1)).Some?
    ensures Found(Seen(run, r)).Some? && Names(Found(Seen(run, r)).value, RouteOf(After(run).value, step).dest)
    ensures Attempts(Seen(run, r)) == Attempts(Seen(run, k + 1)) <==> NoConnect(run, k + 1, r)
    ensures NoConnect(run, k + 1, r) ==> Found(Seen(run, r)) == Found(Seen(run, k + 1))
  {
    hide After, Inv, Follows, Found, Current, Attempts, Pton;
    ReadIsKept(run, r, step.i);
    var early := run[..r];
    RunsKnow(early);
    StartComesFirst(run, k, r, step.i);
    assert early[..k] == run[..k] && early[..k + 1] == run[..k + 1];
    assert forall j :: 0 <= j < r ==> early[j] == run[j];
    AttemptsBetween(early, k + 1);
    StartIsOwn(early, k, step.i);
    if NoConnect(run, k + 1, r) {
      OwnDiscovery(early, k, step.i);
    }
  }

  lemma StartIsOwn(run: seq<Step>, k: nat, i: nat)
    requires After(run).Some? && Starts(run, k, i) && i < |After(run).value.tasks|
    requires OpeningTunnel(After(run).value.tasks[i].stage)
    ensures Current(After(run[..k + 1]).value.w.history).Some?
  {
    hide Inv, Follows, Found, Current, Enabled, Next;
    var start := run[..k + 1];
    OpenedFromStart(run, k, i);
    assert start[..k] == run[..k] && start[..k + 1] == start;
    OwnDiscovery(start, k, i);
  }

  lemma {:induction false} OpenedFromStart(run: seq<Step>, k: nat, i: nat)
    requires After(run).Some? && Starts(run, k, i) && i < |After(run).value.tasks|
    requires OpeningTunnel(After(run).value.tasks[i].stage)
    ensures OpeningTunnel(After(run[..k + 1]).value.tasks[i].stage)
    decreases |run|
  {
    hide Enabled, Next;
    if k + 1 == |run| {
      assert run[..k + 1] == run;
    } else {
      var before := run[..|run| - 1];
      assert run[..k] == before[..k] && run[..k + 1] == before[..k + 1];
      StartedBefore(before, k, i);
      StepGrows(After(before).value, run[|run| - 1]);
      OpenedFromStart(before, k, i);
    }
  }

  lemma StartComesFirst(run: seq<Step>, k: nat, r: nat, i: nat)
    requires After(run).Some? && Starts(run, k, i) && r < |run| && After(run[..r]).Some?
    requires i < |After(run[..r]).value.tasks|
    ensures k < r
  {
    hide Enabled, Next;
    assert r <= k ==> run[..k][..r] == run[..r];
    if r <= k {
      TasksOnlyGrow(run[..k], r);
    }
  }

  lemma {:induction false} TasksOnlyGrow(run: seq<Step>, n: nat)
    requires After(run).Some? && n <= |run|
    ensures After(run[..n]).Some? && |After(run[..n]).value.tasks| <= |After(run).value.tasks|
    decreases |run|
  {
    hide Enabled, Next;
    if n == |run| {
      assert run[..n] == run;
    } else {
      TasksOnlyGrow(run[..|run| - 1], n);
      assert run[..|run| - 1][..n] == run[..n];
      StepGrows(After(run[..|run| - 1]).value, run[|run| - 1]);
    }
  }

  /** Every worker that adds a bypass route was started, and has read its address, exactly once. */
  lemma BypassWasRead(run: seq<Step>, step: Step) returns (k: nat, r: nat)
    requires After(run).Some? && step.AddBypass? && Enabled(After(run).value, step)
    ensures Starts(run, k, step.i) && r < |run| && run[r] == ReadGateway(step.i)
    ensures forall q :: 0 <= q < |run| && run[q] == ReadGateway(step.i) ==> q == r
  {
    hide After, Next, GatewayAddress;
    k := WhenStarted(run, step.i);
    r := WhenRead(run, step.i);
    forall q: nat | q < |run| && run[q] == ReadGateway(step.i) ensures q == r {
      ReadsOnce(run, q, r, step.i);
      ReadsOnce(run, r, q, step.i);
    }
  }

  lemma ReadsOnce(run: seq<Step>, r: nat, q: nat, i: nat)
    requires After(run).Some? && r < |run| && q < |run| && run[r] == run[q] == ReadGateway(i)
    ensures q <= r
  {
    hide After, Next, GatewayAddress;
    ReadIsKept(run, q, i);
    assert r < q ==> run[..q][r] == run[r];
    if r < q {
      ReadIsKept(run[..q], r, i);
    }
  }
}
