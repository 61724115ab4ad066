/**
  Authentication over whole runs: what has to have happened in the current attempt before a
  challenge is sent, a tunnel is started or a configuration is set.
 */
module AuthSafety {
  import opened Wrappers
  import opened Session
  import opened Conservation

  /** The events of the attempt that is going on, without its `Connected`. */
  function Current(h: seq<Event>): Option<seq<Event>>
  {
    if h == [] then None
    else
      match h[|h| - 1]
      case Connected => Some([])
      case Disconnected => None
      case e =>
        match Current(h[..|h| - 1])
        case None => None
        case Some(c) => Some(c + [e])
  }

  predicate EndsWith(c: seq<Event>, e: Event) { c != [] && c[|c| - 1] == e }

  /** The gateway that the first reply of an attempt brought. */
  function Discovered(c: seq<Event>): Option<Gateway>
  {
    if c != [] && c[0].Replied? then c[0].reply.info else None
  }

  /**
    The order of an attempt: a login whose reply brings the gateway, any number of rounds of
    challenge and reply, then the tunnel, then its configuration. A challenge carries the
    session id of the "continue" it answers; the tunnel needs "done", authenticated, and a
    key, and uses that key and the port and address of this attempt's discovery.
   */
  predicate Justified(h: seq<Event>, e: Event)
  {
    match e
    case Connected => true
    case Disconnected => true
    case Replied(r) =>
      var c := Current(h);
      && c.Some?
      && (if r.info.Some? then c.value == [] else c.value != [] && c.value[|c.value| - 1].ChallengeSent?)
    case ChallengeSent(sid) =>
      var c := Current(h);
      && c.Some? && c.value != []
      && var last := c.value[|c.value| - 1];
         last.Replied? && last.reply.status == Some("continue") && last.reply.sessionId == sid
    case TunnelStarted(port, key) =>
      var c := Current(h);
      && c.Some? && c.value != []
      && var last, g := c.value[|c.value| - 1], Discovered(c.value);
         && last.Replied? && last.reply.status == Some("done")
         && last.reply.authenticated && last.reply.key == Some(key)
         && g.Some? && port == g.value.port % 0x1_0000
    case ConfigSet(ip) =>
      var c := Current(h);
      && c.Some? && c.value != [] && c.value[|c.value| - 1].TunnelStarted?
      && var g := Discovered(c.value);
         g.Some? && g.value.ip == Some(ip)
  }

  predicate Safe(h: seq<Event>)
  {
    forall i :: 0 <= i < |h| ==> Justified(h[..i], h[i])
  }

  lemma SafeAppend(h: seq<Event>, e: Event)
    requires Safe(h) && Justified(h, e)
    ensures Safe(h + [e])
  {
    hide Justified;
    var g := h + [e];
    forall i | 0 <= i < |g| ensures Justified(g[..i], g[i]) {
      if i < |h| {
        assert g[..i] == h[..i];
      } else {
        assert g[..i] == h;
      }
    }
  }

  lemma CurrentAppend(h: seq<Event>, e: Event)
    ensures Current(h + [e])
            == match e
               case Connected => Some([])
               case Disconnected => None
               case _ => match Current(h) case None => None case Some(c) => Some(c + [e])
  {
    assert (h + [e])[..|h|] == h;
  }

  // ---- how the state follows the history ----

  /** Port and address in the plugin are those this attempt discovered. */
  predicate Knows(p: Fields, c: seq<Event>)
  {
    var g := Discovered(c);
    g.Some? && p.tcptPort == g.value.port % 0x1_0000 && p.gatewayIp == g.value.ip
  }

  /** What the stage of the live task says about the attempt so far. */
  predicate StageFits(p: Fields, c: seq<Event>, stage: Stage)
  {
    match stage
    case LoggingIn => c == []
    case Challenging(sid) => EndsWith(c, ChallengeSent(sid)) && Knows(p, c)
    case AuthReturned(Some(r)) =>
      if r.info.Some? then c == [] else c != [] && c[|c| - 1].ChallengeSent? && Knows(p, c)
    case AuthReturned(None) => true
    case Connecting(port, key) => EndsWith(c, TunnelStarted(port, key)) && Knows(p, c)
    case Created(_, _, _, gateway, _) =>
      && c != [] && c[|c| - 1].TunnelStarted? && Knows(p, c)
      && (gateway.Some? ==> gateway == GatewayAddress(p))
    case Delivered => true
    case _ => c != [] && c[|c| - 1].TunnelStarted? && Knows(p, c)
  }

  predicate AwaitFits(p: Fields, c: seq<Event>)
  {
    && c != [] && Knows(p, c)
    && var last := c[|c| - 1];
       last.Replied? && last.reply.status == Some("continue") && last.reply.sessionId == p.sessionId
  }

  predicate Follows(s: State)
  {
    && Safe(s.w.history)
    && (s.phase == Idle ==> Current(s.w.history).None?)
    && (s.p.cancellable.Some? ==>
          && Current(s.w.history).Some?
          && (Busy(s) ==> StageFits(s.p, Current(s.w.history).value, s.tasks[|s.tasks| - 1].stage))
          && (s.p.awaitingChallenge ==> AwaitFits(s.p, Current(s.w.history).value))
          && (Configured(Current(s.w.history).value) ==> Forwarding(s.p)))
  }

  predicate Configured(c: seq<Event>) { c != [] && c[|c| - 1].ConfigSet? }

  /** A step that adds no event and leaves the attempt's data alone. */
  lemma QuietFollows(s: State, t: State)
    requires Follows(s) && t.w.history == s.w.history && (t.phase == s.phase || t.phase == Quit)
    requires t.p.tcptPort == s.p.tcptPort && t.p.gatewayIp == s.p.gatewayIp
    requires t.p.awaitingChallenge == s.p.awaitingChallenge && t.p.sessionId == s.p.sessionId
    requires Forwarding(s.p) ==> Forwarding(t.p)
    requires t.p.cancellable == s.p.cancellable
    requires s.p.cancellable.Some? && Busy(t) ==>
      StageFits(s.p, Current(s.w.history).value, t.tasks[|t.tasks| - 1].stage)
    ensures Follows(t)
  {
    hide Safe, Current, Busy;
  }

  /** A worker that moves on still fits, or is not the live one. */
  lemma StagingFollows(s: State, i: nat, stage: Stage, t: State)
    requires Inv(s) && Follows(s) && At(s, i) && !s.tasks[i].stage.Delivered?
    requires t.p.cancellable == s.p.cancellable
      && forall c :: StageFits(s.p, c, s.tasks[i].stage) ==> StageFits(s.p, c, stage)
    requires t.tasks == SetStage(s, i, stage).tasks && t.w.cancelled == s.w.cancelled
    requires t.w.history == s.w.history && t.phase == s.phase
    requires t.p.tcptPort == s.p.tcptPort && t.p.gatewayIp == s.p.gatewayIp
    requires t.p.awaitingChallenge == s.p.awaitingChallenge && t.p.sessionId == s.p.sessionId
    requires Forwarding(s.p) ==> Forwarding(t.p)
    ensures Follows(t)
  {
    hide Safe, Current, StageFits, TokensInv, ShapeInv;
    StagingKeepsTokens(s, i, stage);
    SameTasks(SetStage(s, i, stage), t);
    QuietFollows(s, t);
  }

  lemma AuthReturnFollows(s: State, i: nat, reply: Option<AuthReply>)
    requires Inv(s) && Follows(s) && Enabled(s, AuthReturn(i, reply))
    ensures Follows(SetStage(s, i, AuthReturned(reply)))
  {
    hide Inv, Follows;
    StagingFollows(s, i, AuthReturned(reply), SetStage(s, i, AuthReturned(reply)));
  }

  predicate OpeningTunnel(stage: Stage)
  {
    stage.Connecting? || stage.Opened? || stage.Created? || stage.Configured?
  }

  /** Once the tunnel is being opened nothing about the attempt changes until it is delivered. */
  lemma TunnelWorkerFollows(s: State, i: nat, stage: Stage, t: State)
    requires Inv(s) && Follows(s) && At(s, i) && OpeningTunnel(s.tasks[i].stage)
    requires (OpeningTunnel(stage) && !stage.Connecting?) || stage.TunnelReturned?
    requires stage.Created? && stage.gateway.Some? ==>
               stage.gateway == GatewayAddress(s.p)
               || (s.tasks[i].stage.Created? && s.tasks[i].stage.gateway == stage.gateway)
    requires t.p.cancellable == s.p.cancellable
    requires t.tasks == SetStage(s, i, stage).tasks && t.w.cancelled == s.w.cancelled
    requires t.w.history == s.w.history && t.phase == s.phase
    requires t.p.tcptPort == s.p.tcptPort && t.p.gatewayIp == s.p.gatewayIp
    requires t.p.awaitingChallenge == s.p.awaitingChallenge && t.p.sessionId == s.p.sessionId
    requires Forwarding(s.p) ==> Forwarding(t.p)
    ensures Follows(t)
  {
    hide Inv, Follows, Knows;
    StagingFollows(s, i, stage, t);
  }

  lemma WorkerFollows(s: State, step: Step)
    requires Inv(s) && Follows(s) && Enabled(s, step)
    requires WorkerStep(step) && !step.AuthReturn?
    ensures Follows(Next(s, step))
  {
    hide Inv, Follows, Next, GatewayAddress;
    var t := Next(s, step);
    WorkerFrame(s, step);
    WorkerStages(s, step);
    TunnelWorkerFollows(s, step.i, t.tasks[step.i].stage, t);
  }

  /** What becomes of a worker that opens a tunnel. */
  lemma WorkerStages(s: State, step: Step)
    requires Enabled(s, step) && WorkerStep(step) && !step.AuthReturn?
    ensures var old_, new_ := s.tasks[step.i].stage, Next(s, step).tasks[step.i].stage;
            && OpeningTunnel(old_) && ((OpeningTunnel(new_) && !new_.Connecting?) || new_.TunnelReturned?)
            && (new_.Created? && new_.gateway.Some? ==>
                  new_.gateway == GatewayAddress(s.p) || (old_.Created? && old_.gateway == new_.gateway))
    ensures Forwarding(s.p) ==> Forwarding(Next(s, step).p)
  {
    hide One, Both, GatewayAddress;
  }

  lemma StopFollows(s: State, quit: bool)
    requires Follows(s)
    ensures Follows(StopNext(s, quit))
  {
    hide Safe, Current, Busy, Justified, FieldsHold;
    StartsAndStops(s.w.history);
    SafeAppend(s.w.history, Disconnected);
    CurrentAppend(s.w.history, Disconnected);
  }

  lemma StartsAndStops(h: seq<Event>)
    ensures Justified(h, Connected) && Justified(h, Disconnected)
  {
  }

  lemma ConnectFollows(s: State, configOk: bool)
    requires Inv(s) && Follows(s)
    ensures Follows(ConnectNext(s, configOk))
  {
    hide Safe, Current, Busy, Justified, Reset, Inv;
    StartsAndStops(s.w.history);
    SafeAppend(s.w.history, Connected);
    CurrentAppend(s.w.history, Connected);
    ResetKeepsInv(s);
    ResetHistory(s);
    var r, t := Reset(s), ConnectNext(s, configOk);
    if !configOk {
      var u := r.(p := r.p.(cancellable := Some(r.w.nextToken)));
      SameTasks(r, t);
    }
  }

  lemma ResetHistory(s: State)
    ensures Reset(s).w.history == s.w.history && Reset(s).phase == s.phase && Reset(s).p.cancellable == None
  {
  }

  lemma SecretsFollow(s: State, code: string)
    requires Inv(s) && Follows(s) && s.phase == Attempt
    ensures Follows(SecretsNext(s, code))
  {
    hide Safe, Current, Busy, TokensInv;
    if s.p.awaitingChallenge && code != "" {
      var e := ChallengeSent(s.p.sessionId);
      SafeAppend(s.w.history, e);
      CurrentAppend(s.w.history, e);
    }
  }

  lemma ReplyFollows(s: State, r: AuthReply)
    requires Safe(s.w.history) && s.phase == Attempt && !Busy(s) && !s.p.awaitingChallenge
    requires Current(s.w.history).Some? && StageFits(s.p, Current(s.w.history).value, AuthReturned(Some(r)))
    ensures Follows(AuthNext(s, r))
  {
    hide Safe, Current, Busy;
    var h, c := s.w.history, Current(s.w.history).value;
    var e, d := Replied(r), c + [Replied(r)];
    SafeAppend(h, e);
    CurrentAppend(h, e);
    var u := StoreGateway(s, r.info);
    assert Knows(u.p, d);
    assert d[|d| - 1] == e;
    var t := AuthNext(s, r);
    if r.status == Some("done") && r.authenticated && r.key.Some? {
      var f := TunnelStarted(u.p.tcptPort, r.key.value);
      SafeAppend(h + [e], f);
      CurrentAppend(h + [e], f);
      assert Discovered(d + [f]) == Discovered(d);
    } else {
      SameTasks(s, t);
    }
  }

  lemma FinishFollows(s: State, valid: bool, wakeOk: bool, keepalive: nat)
    requires Follows(s) && s.phase == Attempt && !Busy(s) && !s.p.awaitingChallenge && Published(s.p)
    requires s.p.cancellable.Some?
    requires StageFits(s.p, Current(s.w.history).value, TunnelReturned(true))
    ensures Follows(FinishNext(s, valid, wakeOk, keepalive))
  {
    hide Safe, Current, Busy, FieldsHold;
    var t := FinishNext(s, valid, wakeOk, keepalive);
    SameTasks(s, t);
    if GatewayAddress(s.p).Some? && valid {
      SafeAppend(s.w.history, ConfigSet(s.p.gatewayIp.value));
      CurrentAppend(s.w.history, ConfigSet(s.p.gatewayIp.value));
    }
  }

  lemma DeliverFollows(s: State, i: nat, valid: bool, wakeOk: bool, keepalive: nat)
    requires Inv(s) && Follows(s) && Enabled(s, Deliver(i, valid, wakeOk, keepalive))
    ensures Follows(DeliverNext(s, i, valid, wakeOk, keepalive))
  {
    hide Safe, Current, Busy, Inv, AuthNext, FinishNext, StageFits;
    var t := SetStage(s, i, Delivered);
    DeliveredFits(s);
    StagingFollows(s, i, Delivered, t);
    if !Cancelled(s, s.tasks[i]) {
      LiveMeansAttempt(s, i);
      LastDelivered(s, i);
      match s.tasks[i].stage
      case AuthReturned(Some(r)) => ReplyFollows(t, r);
      case TunnelReturned(true) => FinishFollows(t, valid, wakeOk, keepalive);
      case _ =>
    }
  }

  lemma DeliveredFits(s: State)
    ensures forall c :: StageFits(s.p, c, Delivered)
  {
  }

  lemma StepFollows(s: State, step: Step)
    requires Inv(s) && Follows(s) && Enabled(s, step)
    ensures Follows(Next(s, step))
  {
    hide Inv, Follows, ConnectNext, StopNext, SecretsNext, DeliverNext, Reset, StageFits, Current;
    match step
    case Connect(configOk) => ConnectFollows(s, configOk);
    case NewSecrets(code) => SecretsFollow(s, code);
    case Disconnect => StopFollows(s, false);
    case Terminate => StopFollows(s, true);
    case PeerQuit => QuitFollows(s);
    case Finalize => FinalizeFollows(s);
    case Deliver(i, valid, wakeOk, keepalive) => DeliverFollows(s, i, valid, wakeOk, keepalive);
    case TimerStops => TimerFollows(s);
    case AuthReturn(i, reply) => AuthReturnFollows(s, i, reply);
    case _ => WorkerFollows(s, step);
  }

  lemma QuitFollows(s: State)
    requires Follows(s)
    ensures Follows(s.(phase := Quit))
  {
  }

  lemma FinalizeFollows(s: State)
    requires Follows(s) && s.phase == Quit
    ensures Follows(Reset(s))
  {
    hide Safe, Reset;
    ResetHistory(s);
  }

  lemma TimerFollows(s: State)
    requires Follows(s)
    ensures Follows(TimerStopNext(s))
  {
    hide Busy;
    SameTasks(s, TimerStopNext(s));
    QuietFollows(s, TimerStopNext(s));
  }

  lemma InitFollows()
    ensures Follows(Init())
  {
  }

  lemma {:induction false} RunsFollow(run: seq<Step>)
    requires After(run).Some?
    ensures Follows(After(run).value)
    decreases |run|
  {
    hide Follows, Inv, Enabled, Next;
    if run == [] {
      InitFollows();
    } else {
      var before := run[..|run| - 1];
      RunsKeepInv(before);
      RunsFollow(before);
      StepFollows(After(before).value, run[|run| - 1]);
    }
  }

  /** In every run every challenge, tunnel and configuration is justified by its own attempt. */
  lemma EveryRunIsSafe(run: seq<Step>, i: nat)
    requires After(run).Some? && i < |After(run).value.w.history|
    ensures Justified(After(run).value.w.history[..i], After(run).value.w.history[i])
  {
    hide Justified;
    RunsFollow(run);
  }

  /** A configuration is set only when its session is up, and it stays up until it is stopped. */
  lemma ConfiguredIsForwarding(run: seq<Step>)
    requires After(run).Some? && After(run).value.phase == Attempt
    requires var c := Current(After(run).value.w.history); c.Some? && Configured(c.value)
    ensures Forwarding(After(run).value.p)
  {
    hide Current, After;
    RunsFollow(run);
    RunsKeepInv(run);
  }

  /** A worker that can still be cancelled belongs to the attempt that is going on. */
  lemma LiveFollows(s: State, i: nat)
    requires Inv(s) && Follows(s) && Live(s, i)
    ensures i == |s.tasks| - 1 && Current(s.w.history).Some?
    ensures StageFits(s.p, Current(s.w.history).value, s.tasks[i].stage)
  {
    hide Safe, Current, StageFits;
  }

  /** The worker that opens the tunnel was given the key and port that the history says. */
  lemma WorkerUsesThisAttempt(run: seq<Step>, i: nat)
    requires After(run).Some? && Live(After(run).value, i) && After(run).value.tasks[i].stage.Connecting?
    ensures var s := After(run).value;
            && Current(s.w.history).Some?
            && EndsWith(Current(s.w.history).value, TunnelStarted(s.tasks[i].stage.port, s.tasks[i].stage.key))
  {
    hide Current, After;
    RunsFollow(run);
    RunsKeepInv(run);
    LiveFollows(After(run).value, i);
  }
}
