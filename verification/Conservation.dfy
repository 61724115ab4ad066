/**
  What every run of the session machine keeps: one live task at most, nothing published over
  something else, and everything opened held once or released once.
 */
module Conservation {
  import opened Wrappers
  import opened Session

  // ---- the live task ----

  /** A task whose callback has still to run and will not be dropped. */
  predicate Live(s: State, i: nat)
  {
    i < |s.tasks| && !s.tasks[i].stage.Delivered? && !Cancelled(s, s.tasks[i])
  }

  predicate Busy(s: State) { s.tasks != [] && Live(s, |s.tasks| - 1) }

  /** Nothing is published or running. */
  predicate Bare(p: Fields)
  {
    p.tunnel.None? && p.tunFd.None? && p.tunName.None? && NotForwarding(p)
  }

  predicate NotForwarding(p: Fields)
  {
    p.wakeFd.None? && p.uplink.None? && p.downlink.None? && p.timer.None?
  }

  predicate Published(p: Fields) { p.tunnel.Some? && p.tunFd.Some? && p.tunName.Some? }

  predicate Forwarding(p: Fields) { Published(p) && p.uplink.Some? && p.downlink.Some? }

  predicate TokensInv(s: State)
  {
    && (s.p.cancellable.Some? ==> s.p.cancellable.value < s.w.nextToken && s.p.cancellable.value !in s.w.cancelled)
    && (forall t :: t in s.w.cancelled ==> t < s.w.nextToken)
    && (forall i :: 0 <= i < |s.tasks| ==> s.tasks[i].token.Some?)
    && (forall i :: 0 <= i < |s.tasks| && Live(s, i) ==> i == |s.tasks| - 1 && s.tasks[i].token == s.p.cancellable)
  }

  predicate ShapeInv(s: State)
  {
    && (s.phase == Idle ==> s.p.cancellable.None? && Bare(s.p))
    && (s.phase == Attempt ==> s.p.cancellable.Some?)
    && (s.phase == Attempt && s.p.awaitingChallenge ==> !Busy(s) && Bare(s.p))
    && (if Busy(s) then
          if s.tasks[|s.tasks| - 1].stage == TunnelReturned(true)
          then Published(s.p) && NotForwarding(s.p) else Bare(s.p)
        else Bare(s.p) || Forwarding(s.p))
  }

  predicate Inv(s: State) { TokensInv(s) && ShapeInv(s) }

  // ---- what every step keeps ----

  /** A worker moves on, or its callback runs, without publishing anything. */
  lemma StagingKeepsTokens(s: State, i: nat, stage: Stage)
    requires TokensInv(s) && i < |s.tasks| && !s.tasks[i].stage.Delivered?
    ensures TokensInv(SetStage(s, i, stage))
    ensures Busy(SetStage(s, i, stage)) <==> Busy(s) && !(i == |s.tasks| - 1 && stage.Delivered?)
    ensures Live(s, i) <==> Busy(s) && i == |s.tasks| - 1
  {
    var t := SetStage(s, i, stage);
    forall j | 0 <= j < |t.tasks| && Live(t, j)
      ensures j == |t.tasks| - 1 && t.tasks[j].token == t.p.cancellable
    {
      assert Live(s, j);
    }
  }

  lemma StagingKeepsInv(s: State, i: nat, stage: Stage)
    requires Inv(s) && i < |s.tasks| && !s.tasks[i].stage.Delivered? && !s.tasks[i].stage.TunnelReturned?
    requires !stage.Delivered? && stage != TunnelReturned(true)
    ensures Inv(SetStage(s, i, stage))
  {
    hide TokensInv, Busy, Live;
    StagingKeepsTokens(s, i, stage);
  }

  /** Once the cancellable is cancelled no task is live. */
  lemma CancelKillsAll(s: State)
    requires TokensInv(s)
    ensures TokensInv(Cancel(s)) && !Busy(Cancel(s)) && Cancel(s).p.cancellable.None?
    ensures forall i :: 0 <= i < |s.tasks| ==> !Live(Cancel(s), i)
  {
    var t := Cancel(s);
    forall i | 0 <= i < |s.tasks| ensures !Live(t, i) {
      if Live(t, i) {
        assert Live(s, i);
      }
    }
  }

  lemma StopKeepsInv(s: State, quit: bool)
    requires Inv(s)
    ensures Inv(StopNext(s, quit)) && Bare(StopNext(s, quit).p) && !Busy(StopNext(s, quit))
  {
    hide Cancel;
    CancelKillsAll(s);
    var c, t := Cancel(s), StopNext(s, quit);
    assert t.tasks == c.tasks && t.w.cancelled == c.w.cancelled;
    assert forall i :: 0 <= i < |t.tasks| ==> Live(t, i) == Live(c, i);
  }

  lemma ResetKeepsInv(s: State)
    requires Inv(s)
    ensures TokensInv(Reset(s)) && Bare(Reset(s).p) && !Busy(Reset(s)) && Reset(s).p.cancellable.None?
    ensures !Reset(s).p.awaitingChallenge
  {
    hide Cancel;
    CancelKillsAll(s);
    var c, t := Cancel(s), Reset(s);
    assert t.tasks == c.tasks && t.w.cancelled == c.w.cancelled;
    assert forall i :: 0 <= i < |t.tasks| ==> Live(t, i) == Live(c, i);
  }

  /** A new task is the only live one. */
  lemma StartKeepsTokens(s: State, stage: Stage)
    requires TokensInv(s) && !Busy(s) && s.p.cancellable.Some? && !stage.Delivered?
    ensures TokensInv(Start(s, stage)) && Busy(Start(s, stage))
  {
    var t := Start(s, stage);
    forall j | 0 <= j < |t.tasks| && Live(t, j)
      ensures j == |t.tasks| - 1 && t.tasks[j].token == t.p.cancellable
    {
      if j < |s.tasks| {
        assert Live(s, j);
      }
    }
  }

  lemma ConnectKeepsInv(s: State, configOk: bool)
    requires Inv(s)
    ensures Inv(ConnectNext(s, configOk))
  {
    hide Reset;
    ResetKeepsInv(s);
    var r := Reset(s);
    assert r.tasks == s.tasks && r.w.nextToken == s.w.nextToken by { ResetFrame(s); }
    var t := Record(r.(p := r.p.(cancellable := Some(r.w.nextToken)), w := r.w.(nextToken := r.w.nextToken + 1),
                       phase := Attempt), Connected);
    assert forall i :: 0 <= i < |t.tasks| ==> Live(t, i) == Live(r, i);
    if configOk {
      StartKeepsTokens(t, LoggingIn);
    }
  }

  lemma ResetFrame(s: State)
    ensures Reset(s).tasks == s.tasks && Reset(s).w.nextToken == s.w.nextToken
  {
  }

  lemma SecretsKeepInv(s: State, code: string)
    requires Inv(s) && s.phase == Attempt
    ensures Inv(SecretsNext(s, code))
  {
    if s.p.awaitingChallenge && code != "" {
      var t := s.(p := s.p.(awaitingChallenge := false));
      assert forall i :: 0 <= i < |t.tasks| ==> Live(t, i) == Live(s, i);
      StartKeepsTokens(t, Challenging(s.p.sessionId));
      var u := Start(t, Challenging(s.p.sessionId));
      var v := SecretsNext(s, code);
      assert forall i :: 0 <= i < |v.tasks| ==> Live(v, i) == Live(u, i);
    }
  }

  /** Changing neither tasks nor tokens changes nothing about who is live. */
  lemma SameTasks(s: State, t: State)
    requires s.tasks == t.tasks && s.w.cancelled == t.w.cancelled
    ensures Busy(s) == Busy(t) && forall i :: 0 <= i < |s.tasks| ==> Live(s, i) == Live(t, i)
  {
  }

  lemma AuthKeepsInv(s: State, r: AuthReply)
    requires TokensInv(s) && !Busy(s) && Bare(s.p) && s.phase == Attempt && s.p.cancellable.Some?
    requires !s.p.awaitingChallenge
    ensures Inv(AuthNext(s, r))
  {
    hide Live;
    var u := StoreGateway(Record(s, Replied(r)), r.info);
    SameTasks(s, u);
    var n := AuthNext(s, r);
    if r.status == Some("continue") {
      SameTasks(s, n);
    } else if r.status == Some("done") && r.authenticated && r.key.Some? {
      StartKeepsTokens(u, Connecting(u.p.tcptPort, r.key.value));
      SameTasks(Start(u, Connecting(u.p.tcptPort, r.key.value)), n);
    } else {
      SameTasks(s, n);
    }
  }

  lemma FinishKeepsInv(s: State, valid: bool, wakeOk: bool, keepalive: nat)
    requires TokensInv(s) && !Busy(s) && Published(s.p) && s.phase == Attempt && s.p.cancellable.Some?
    requires !s.p.awaitingChallenge
    ensures Inv(FinishNext(s, valid, wakeOk, keepalive))
  {
    hide Live, TokensInv, Busy, FieldsHold, One;
    var t := FinishNext(s, valid, wakeOk, keepalive);
    assert t.tasks == s.tasks && t.w.cancelled == s.w.cancelled && t.w.nextToken == s.w.nextToken;
    SameTasks(s, t);
    SameTokens(s, t);
  }

  /** During an attempt, whoever is live is the last task, and no challenge is awaited. */
  lemma LiveMeansAttempt(s: State, i: nat)
    requires Inv(s) && s.phase != Quit && Live(s, i)
    ensures i == |s.tasks| - 1 && Busy(s) && s.phase == Attempt && s.p.cancellable.Some? && !s.p.awaitingChallenge
    ensures if s.tasks[i].stage == TunnelReturned(true) then Published(s.p) && NotForwarding(s.p) else Bare(s.p)
  {
  }

  lemma LastDelivered(s: State, i: nat)
    requires Inv(s) && Live(s, i)
    ensures !Busy(SetStage(s, i, Delivered))
  {
    StagingKeepsTokens(s, i, Delivered);
  }

  lemma DeliverKeepsInv(s: State, i: nat, valid: bool, wakeOk: bool, keepalive: nat)
    requires Inv(s) && s.phase != Quit && At(s, i)
    requires s.tasks[i].stage.AuthReturned? || s.tasks[i].stage.TunnelReturned?
    ensures Inv(DeliverNext(s, i, valid, wakeOk, keepalive))
  {
    hide AuthNext, FinishNext, TokensInv, Busy;
    var t := SetStage(s, i, Delivered);
    StagingKeepsTokens(s, i, Delivered);
    if !Cancelled(s, s.tasks[i]) {
      LiveMeansAttempt(s, i);
      match s.tasks[i].stage
      case AuthReturned(Some(r)) => AuthKeepsInv(t, r);
      case TunnelReturned(true) => FinishKeepsInv(t, valid, wakeOk, keepalive);
      case _ =>
    }
  }

  lemma PublishKeepsInv(s: State, i: nat)
    requires Inv(s) && At(s, i) && s.tasks[i].stage.Configured?
    ensures Inv(PublishNext(s, i))
    ensures !Cancelled(s, s.tasks[i]) ==> Bare(s.p)
  {
    hide TokensInv, Busy;
    if Cancelled(s, s.tasks[i]) {
      StagingKeepsInv(s, i, TunnelReturned(false));
      var t := SetStage(s, i, TunnelReturned(false));
      SameTasks(t, PublishNext(s, i));
      SameTokens(t, PublishNext(s, i));
    } else {
      StagingKeepsTokens(s, i, TunnelReturned(true));
      var t := SetStage(s, i, TunnelReturned(true));
      assert Live(s, i);
      SameTasks(t, PublishNext(s, i));
      SameTokens(t, PublishNext(s, i));
    }
  }

  lemma SameTokens(s: State, t: State)
    requires TokensInv(s) && s.tasks == t.tasks && s.w.cancelled == t.w.cancelled
    requires s.p.cancellable == t.p.cancellable && s.w.nextToken == t.w.nextToken
    ensures TokensInv(t)
  {
    SameTasks(s, t);
  }

  lemma SameShape(s: State, t: State)
    requires Inv(s) && s.tasks == t.tasks && s.w.cancelled == t.w.cancelled && s.w.nextToken == t.w.nextToken
    requires t.p == s.p.(bypass := t.p.bypass, timer := t.p.timer) && (t.p.timer.Some? ==> s.p.timer.Some?)
    requires t.phase == s.phase || t.phase == Quit
    ensures Inv(t)
  {
    hide TokensInv, Busy;
    SameTokens(s, t);
    SameTasks(s, t);
  }

  lemma WorkerKeepsInv(s: State, step: Step)
    requires Inv(s) && Enabled(s, step)
    requires step.AuthReturn? || step.Open? || step.Create? || step.Configure? || step.ReadGateway? || step.AddBypass?
    ensures Inv(Next(s, step))
  {
    hide Inv;
    match step
    case AuthReturn(i, reply) => StagingKeepsInv(s, i, AuthReturned(reply));
    case Open(i, ok) =>
      var stage := if ok then Opened(s.w.nextId) else TunnelReturned(false);
      StagingKeepsInv(s, i, stage);
      SameShape(SetStage(s, i, stage), Next(s, step));
    case Create(i, ok, name) =>
      var stage := if ok then Created(s.tasks[i].stage.tunnel, s.w.nextId, name, None, false)
            else TunnelReturned(false);
      StagingKeepsInv(s, i, stage);
      SameShape(SetStage(s, i, stage), Next(s, step));
    case ReadGateway(i) => StagingKeepsInv(s, i, s.tasks[i].stage.(gateway := GatewayAddress(s.p)));
    case AddBypass(i, _, _) =>
      var stage := s.tasks[i].stage.(bypassed := true);
      StagingKeepsInv(s, i, stage);
      SameShape(SetStage(s, i, stage), Next(s, step));
    case Configure(i, ok) =>
      var c := s.tasks[i].stage;
      var stage := if ok then Configured(c.tunnel, c.fd, c.name) else TunnelReturned(false);
      StagingKeepsInv(s, i, stage);
      SameShape(SetStage(s, i, stage), Next(s, step));
  }

  lemma FinalizeKeepsInv(s: State)
    requires Inv(s) && s.phase == Quit
    ensures Inv(Reset(s))
  {
    hide Reset, TokensInv, Busy;
    ResetKeepsInv(s);
    assert Reset(s).phase == Quit by { ResetPhase(s); }
  }

  lemma ResetPhase(s: State)
    ensures Reset(s).phase == s.phase
  {
  }

  lemma StepKeepsInv(s: State, step: Step)
    requires Inv(s) && Enabled(s, step)
    ensures Inv(Next(s, step))
  {
    hide Inv, ConnectNext, SecretsNext, StopNext, Reset, PublishNext, DeliverNext;
    match step
    case Connect(configOk) => ConnectKeepsInv(s, configOk);
    case NewSecrets(code) => SecretsKeepInv(s, code);
    case Disconnect => StopKeepsInv(s, false);
    case Terminate => StopKeepsInv(s, true);
    case PeerQuit => SameShape(s, s.(phase := Quit));
    case Finalize => FinalizeKeepsInv(s);
    case AddBypass(_, _, _) => WorkerKeepsInv(s, step);
    case Publish(i) => PublishKeepsInv(s, i);
    case Deliver(i, valid, wakeOk, keepalive) => DeliverKeepsInv(s, i, valid, wakeOk, keepalive);
    case TimerStops => SameShape(s, TimerStopNext(s));
    case _ => WorkerKeepsInv(s, step);
  }

  lemma {:induction false} RunsKeepInv(run: seq<Step>)
    requires After(run).Some?
    ensures Inv(After(run).value)
    decreases |run|
  {
    hide Inv, Enabled, Next;
    if run == [] {
      InitInv();
    } else {
      RunsKeepInv(run[..|run| - 1]);
      StepKeepsInv(After(run[..|run| - 1]).value, run[|run| - 1]);
    }
  }

  lemma InitInv()
    ensures Inv(Init())
  {
  }

  /** In every run at most one task is not cancelled and not delivered, and it can still be cancelled. */
  lemma AtMostOneLive(run: seq<Step>, i: nat, j: nat)
    requires After(run).Some? && Live(After(run).value, i) && Live(After(run).value, j)
    ensures i == j && After(run).value.tasks[i].token == After(run).value.p.cancellable
    ensures After(run).value.p.cancellable.Some?
  {
    RunsKeepInv(run);
  }

  /** Publication never overwrites a tunnel, a descriptor, a thread or a timer. */
  lemma PublishesOverNothing(run: seq<Step>, i: nat)
    requires After(run).Some? && Enabled(After(run).value, Publish(i))
    requires !Cancelled(After(run).value, After(run).value.tasks[i])
    ensures Bare(After(run).value.p)
  {
    RunsKeepInv(run);
    PublishKeepsInv(After(run).value, i);
  }

  /**
    In every run, once no task is live, either the whole session is up (tunnel, device and both
    threads) or nothing is. So the keepalive timer always finds a tunnel to send on.
   */
  lemma AllOrNothing(run: seq<Step>)
    requires After(run).Some?
    ensures var s := After(run).value;
            && (Busy(s) || Bare(s.p) || Forwarding(s.p))
            && (s.p.timer.Some? ==> Forwarding(s.p))
  {
    hide After;
    RunsKeepInv(run);
  }

  // ---- conservation ----

  function StageHolds(stage: Stage): multiset<nat>
  {
    match stage
    case Opened(t) => multiset{t}
    case Created(t, fd, _, _, _) => Both(t, fd)
    case Configured(t, fd, _) => Both(t, fd)
    case _ => multiset{}
  }

  function TasksHold(tasks: seq<Task>): multiset<nat>
  {
    if tasks == [] then multiset{}
    else TasksHold(tasks[..|tasks| - 1]) + StageHolds(tasks[|tasks| - 1].stage)
  }

  function Held(s: State): multiset<nat> { FieldsHold(s.p) + TasksHold(s.tasks) }

  function Ids(n: nat): multiset<nat>
  {
    if n == 0 then multiset{} else Ids(n - 1) + multiset{n - 1}
  }

  predicate Conserved(s: State) { Held(s) + s.w.released == Ids(s.w.nextId) }

  lemma {:induction false} HoldSet(tasks: seq<Task>, i: nat, t: Task)
    requires i < |tasks|
    ensures TasksHold(tasks[i := t]) + StageHolds(tasks[i].stage) == TasksHold(tasks) + StageHolds(t.stage)
    decreases |tasks|
  {
    hide StageHolds;
    var n := |tasks| - 1;
    var front, last := tasks[..n], tasks[n];
    if i < n {
      HoldSet(front, i, t);
      assert tasks[i := t][..n] == front[i := t];
      Exchange(TasksHold(front[i := t]), StageHolds(tasks[i].stage), TasksHold(front), StageHolds(t.stage),
               StageHolds(last.stage));
    } else {
      assert tasks[i := t][..n] == front;
    }
  }

  lemma Exchange(a: multiset<nat>, x: multiset<nat>, b: multiset<nat>, y: multiset<nat>, more: multiset<nat>)
    requires a + x == b + y
    ensures (a + more) + x == (b + more) + y
  {
    assert (a + more) + x == (a + x) + more;
  }

  lemma HoldAdd(tasks: seq<Task>, t: Task)
    ensures TasksHold(tasks + [t]) == TasksHold(tasks) + StageHolds(t.stage)
  {
    assert (tasks + [t])[..|tasks|] == tasks;
  }

  predicate SameRuntime(p: Fields, q: Fields)
  {
    && p.tunnel == q.tunnel && p.tunFd == q.tunFd && p.wakeFd == q.wakeFd && p.uplink == q.uplink
    && p.downlink == q.downlink && p.timer == q.timer
  }

  /** What the workers hold changes from `x` to `y`, ids are freed and new ones are handed out. */
  lemma Shift(s: State, t: State, x: multiset<nat>, y: multiset<nat>, freed: multiset<nat>, handed: multiset<nat>)
    requires Conserved(s) && SameRuntime(s.p, t.p)
    requires t.w.released == s.w.released + freed && Ids(t.w.nextId) == Ids(s.w.nextId) + handed
    requires TasksHold(t.tasks) + x == TasksHold(s.tasks) + y && x + handed == y + freed
    ensures Conserved(t)
  {
    hide TasksHold, Ids, One;
    ShiftSums(FieldsHold(s.p), TasksHold(s.tasks), TasksHold(t.tasks), s.w.released, x, y, freed, handed);
  }

  lemma ShiftSums(f: multiset<nat>, a: multiset<nat>, b: multiset<nat>, r: multiset<nat>,
                  x: multiset<nat>, y: multiset<nat>, freed: multiset<nat>, handed: multiset<nat>)
    requires b + x == a + y && x + handed == y + freed
    ensures (f + b) + (r + freed) == (f + a) + r + handed
  {
    forall k: nat ensures ((f + b) + (r + freed))[k] == ((f + a) + r + handed)[k] {
      assert (b + x)[k] == (a + y)[k] && (x + handed)[k] == (y + freed)[k];
    }
  }

  /** Fields change by what they lose and gain; the workers hold as much as before. */
  lemma Trade(s: State, t: State, lost: multiset<nat>, gained: multiset<nat>,
              freed: multiset<nat>, handed: multiset<nat>)
    requires Conserved(s) && FieldsHold(t.p) + lost == FieldsHold(s.p) + gained
    requires t.w.released == s.w.released + freed && Ids(t.w.nextId) == Ids(s.w.nextId) + handed
    requires TasksHold(t.tasks) == TasksHold(s.tasks) && lost + handed == gained + freed
    ensures Conserved(t)
  {
    hide TasksHold, Ids, FieldsHold;
    var f, g, a, r := FieldsHold(s.p), FieldsHold(t.p), TasksHold(s.tasks), s.w.released;
    ShiftSums(a, f, g, r, lost, gained, freed, handed);
    assert g + a == a + g && f + a == a + f;
  }

  lemma IdsNext(n: nat)
    ensures Ids(n + 1) == Ids(n) + multiset{n}
  {
  }

  lemma OpenConserves(s: State, i: nat, ok: bool)
    requires Conserved(s) && At(s, i) && s.tasks[i].stage.Connecting?
    ensures Conserved(OpenNext(s, i, ok))
  {
    hide TasksHold, FieldsHold, Conserved, Ids;
    var t, n := OpenNext(s, i, ok), s.w.nextId;
    HoldSet(s.tasks, i, t.tasks[i]);
    IdsNext(n);
    var x := if ok then multiset{n} else multiset{};
    Shift(s, t, multiset{}, x, multiset{}, x);
  }

  lemma CreateConserves(s: State, i: nat, ok: bool, name: string)
    requires Conserved(s) && At(s, i) && s.tasks[i].stage.Opened?
    ensures Conserved(CreateNext(s, i, ok, name))
  {
    hide TasksHold, FieldsHold, Conserved, Ids;
    var t, n, tunnel := CreateNext(s, i, ok, name), s.w.nextId, s.tasks[i].stage.tunnel;
    HoldSet(s.tasks, i, t.tasks[i]);
    IdsNext(n);
    if ok {
      Shift(s, t, multiset{tunnel}, Both(tunnel, n), multiset{}, multiset{n});
    } else {
      Shift(s, t, multiset{tunnel}, multiset{}, multiset{tunnel}, multiset{});
    }
  }

  lemma ConfigureConserves(s: State, i: nat, ok: bool)
    requires Conserved(s) && At(s, i) && s.tasks[i].stage.Created?
    ensures Conserved(ConfigureNext(s, i, ok))
  {
    hide TasksHold, FieldsHold, Conserved, Ids, Both;
    var t, c := ConfigureNext(s, i, ok), s.tasks[i].stage;
    HoldSet(s.tasks, i, t.tasks[i]);
    var x := Both(c.tunnel, c.fd);
    Shift(s, t, x, if ok then x else multiset{}, if ok then multiset{} else x, multiset{});
  }

  lemma BypassConserves(s: State, i: nat, b: Bypass)
    requires Conserved(s) && At(s, i) && s.tasks[i].stage.Created?
    ensures Conserved(BypassNext(s, i, b))
  {
    hide TasksHold, FieldsHold, Conserved, Ids, Both;
    var t, c := BypassNext(s, i, b), s.tasks[i].stage;
    HoldSet(s.tasks, i, t.tasks[i]);
    Shift(s, t, Both(c.tunnel, c.fd), Both(c.tunnel, c.fd), multiset{}, multiset{});
  }

  lemma ReadConserves(s: State, i: nat)
    requires Conserved(s) && At(s, i) && s.tasks[i].stage.Created?
    ensures Conserved(ReadNext(s, i))
  {
    hide TasksHold, FieldsHold, Conserved, Ids, Both, GatewayAddress;
    var t, c := ReadNext(s, i), s.tasks[i].stage;
    HoldSet(s.tasks, i, t.tasks[i]);
    Shift(s, t, Both(c.tunnel, c.fd), Both(c.tunnel, c.fd), multiset{}, multiset{});
  }

  lemma ReturnConserves(s: State, i: nat, reply: Option<AuthReply>)
    requires Conserved(s) && At(s, i) && (s.tasks[i].stage.LoggingIn? || s.tasks[i].stage.Challenging?)
    ensures Conserved(SetStage(s, i, AuthReturned(reply)))
  {
    hide TasksHold, FieldsHold, Conserved, Ids;
    var t := SetStage(s, i, AuthReturned(reply));
    HoldSet(s.tasks, i, t.tasks[i]);
    Shift(s, t, multiset{}, multiset{}, multiset{}, multiset{});
  }

  lemma PublishConserves(s: State, i: nat)
    requires Conserved(s) && Inv(s) && At(s, i) && s.tasks[i].stage.Configured?
    ensures Conserved(PublishNext(s, i))
  {
    hide TasksHold, Conserved, Ids, Inv, FieldsHold, Both;
    PublishKeepsInv(s, i);
    var t, c := PublishNext(s, i), s.tasks[i].stage;
    var x := Both(c.tunnel, c.fd);
    HoldSet(s.tasks, i, t.tasks[i]);
    if Cancelled(s, s.tasks[i]) {
      Shift(s, t, x, multiset{}, x, multiset{});
    } else {
      PublishedHold(s.p, t.p, c.tunnel, c.fd);
      PublishSums(s, t, x);
    }
  }

  lemma PublishedHold(p: Fields, q: Fields, t: nat, fd: nat)
    requires Bare(p) && q.tunnel == Some(t) && q.tunFd == Some(fd) && NotForwarding(q)
    ensures FieldsHold(q) == FieldsHold(p) + Both(t, fd)
  {
  }

  lemma PublishSums(s: State, t: State, x: multiset<nat>)
    requires Conserved(s) && FieldsHold(t.p) == FieldsHold(s.p) + x && TasksHold(t.tasks) + x == TasksHold(s.tasks)
    requires t.w.released == s.w.released && t.w.nextId == s.w.nextId
    ensures Conserved(t)
  {
    hide TasksHold, FieldsHold, Ids;
    assert (FieldsHold(s.p) + x) + TasksHold(t.tasks) == FieldsHold(s.p) + (TasksHold(t.tasks) + x);
  }

  lemma TeardownConserves(s: State)
    requires Conserved(s)
    ensures Conserved(Teardown(s)) && FieldsHold(Teardown(s).p) == multiset{}
  {
    hide TasksHold, Ids, Conserved;
    Trade(s, Teardown(s), FieldsHold(s.p), multiset{}, FieldsHold(s.p), multiset{});
  }

  /** A step that touches none of the counted things. */
  lemma QuietConserves(s: State, t: State)
    requires Conserved(s) && SameRuntime(s.p, t.p) && s.w.released == t.w.released && s.w.nextId == t.w.nextId
    requires TasksHold(t.tasks) == TasksHold(s.tasks)
    ensures Conserved(t)
  {
    hide TasksHold, Ids, Conserved, FieldsHold;
    Shift(s, t, multiset{}, multiset{}, multiset{}, multiset{});
  }

  lemma StopConserves(s: State)
    requires Conserved(s)
    ensures Conserved(Teardown(Cancel(s))) && Conserved(Reset(s))
  {
    hide TasksHold, Ids, Conserved, Teardown;
    QuietConserves(s, Cancel(s));
    TeardownConserves(Cancel(s));
    QuietConserves(Teardown(Cancel(s)), Reset(s));
  }

  lemma StartConserves(s: State, stage: Stage)
    requires Conserved(s) && StageHolds(stage) == multiset{}
    ensures Conserved(Start(s, stage))
  {
    hide TasksHold, Ids, Conserved, StageHolds;
    HoldAdd(s.tasks, Task(s.p.cancellable, stage));
    assert TasksHold(s.tasks) + multiset{} == TasksHold(s.tasks);
    QuietConserves(s, Start(s, stage));
  }

  lemma AuthConserves(s: State, r: AuthReply)
    requires Conserved(s)
    ensures Conserved(AuthNext(s, r))
  {
    hide TasksHold, Conserved;
    var u := StoreGateway(Record(s, Replied(r)), r.info);
    QuietConserves(s, u);
    QuietConserves(s, u.(p := u.p.(sessionId := r.sessionId, awaitingChallenge := true)));
    if r.status == Some("done") && r.authenticated && r.key.Some? {
      StartConserves(u, Connecting(u.p.tcptPort, r.key.value));
      QuietConserves(Start(u, Connecting(u.p.tcptPort, r.key.value)), AuthNext(s, r));
    }
  }

  /** What `start_forwarding` opens: the wake descriptor, two threads, and the timer. */
  function Opens(n: nat, wakeOk: bool, keepalive: nat): multiset<nat>
  {
    var first := if wakeOk then n + 1 else n;
    One<nat>(if wakeOk then Some(n) else None) + One<nat>(Some(first)) + One<nat>(Some(first + 1))
    + One<nat>(if keepalive > 0 then Some(first + 2) else None)
  }

  lemma IdsOne(n: nat, taken: bool)
    ensures Ids(if taken then n + 1 else n) == Ids(n) + One<nat>(if taken then Some(n) else None)
  {
  }

  lemma OpensIds(s: State, wakeOk: bool, keepalive: nat)
    ensures Ids(ForwardNext(s, wakeOk, keepalive).w.nextId) == Ids(s.w.nextId) + Opens(s.w.nextId, wakeOk, keepalive)
  {
    hide Ids, Opens;
    CountOpens(s.w.nextId, wakeOk, keepalive);
  }

  lemma CountOpens(n: nat, wakeOk: bool, keepalive: nat)
    ensures var first := if wakeOk then n + 1 else n;
            Ids(if keepalive > 0 then first + 3 else first + 2) == Ids(n) + Opens(n, wakeOk, keepalive)
  {
    hide Ids, One;
    var first := if wakeOk then n + 1 else n;
    IdsOne(n, wakeOk);
    IdsOne(first, true);
    IdsOne(first + 1, true);
    IdsOne(first + 2, keepalive > 0);
    SumOfFive(Ids(n), One<nat>(if wakeOk then Some(n) else None), One<nat>(Some(first)), One<nat>(Some(first + 1)),
              One<nat>(if keepalive > 0 then Some(first + 2) else None));
  }

  lemma SumOfFive(a: multiset<nat>, b: multiset<nat>, c: multiset<nat>, d: multiset<nat>, e: multiset<nat>)
    ensures a + b + c + d + e == a + (b + c + d + e)
  {
  }

  lemma FieldsGain(p: Fields, q: Fields)
    requires NotForwarding(p) && q.tunnel == p.tunnel && q.tunFd == p.tunFd
    ensures FieldsHold(q) == FieldsHold(p) + (One(q.wakeFd) + One(q.uplink) + One(q.downlink) + One(q.timer))
  {
    hide One;
    var none: Option<nat> := None;
    assert One(none) == multiset{} by { NoneIsNothing(); }
    SumOfSix(One(p.tunnel), One(p.tunFd), One(q.wakeFd), One(q.uplink), One(q.downlink), One(q.timer));
  }

  lemma NoneIsNothing()
    ensures One<nat>(None) == multiset{}
  {
  }

  lemma SumOfSix(a: multiset<nat>, b: multiset<nat>, c: multiset<nat>, d: multiset<nat>,
                  e: multiset<nat>, f: multiset<nat>)
    ensures a + b + c + d + e + f == a + b + (c + d + e + f)
    ensures a + b + multiset{} + multiset{} + multiset{} + multiset{} == a + b
  {
  }

  lemma OpensFields(s: State, wakeOk: bool, keepalive: nat)
    requires NotForwarding(s.p)
    ensures FieldsHold(ForwardNext(s, wakeOk, keepalive).p) == FieldsHold(s.p) + Opens(s.w.nextId, wakeOk, keepalive)
  {
    hide FieldsHold, One;
    FieldsGain(s.p, ForwardNext(s, wakeOk, keepalive).p);
  }

  lemma FinishConserves(s: State, valid: bool, wakeOk: bool, keepalive: nat)
    requires Conserved(s) && NotForwarding(s.p)
    ensures Conserved(FinishNext(s, valid, wakeOk, keepalive))
  {
    hide TasksHold, Ids, Conserved, Opens, FieldsHold;
    TeardownConserves(s);
    var t := ForwardNext(s, wakeOk, keepalive);
    var handed := Opens(s.w.nextId, wakeOk, keepalive);
    OpensIds(s, wakeOk, keepalive);
    OpensFields(s, wakeOk, keepalive);
    Trade(s, t, multiset{}, handed, multiset{}, handed);
    if GatewayAddress(s.p).Some? && valid {
      QuietConserves(t, FinishNext(s, valid, wakeOk, keepalive));
    }
  }

  lemma DeliverConserves(s: State, i: nat, valid: bool, wakeOk: bool, keepalive: nat)
    requires Conserved(s) && Inv(s) && s.phase != Quit && At(s, i)
    requires s.tasks[i].stage.AuthReturned? || s.tasks[i].stage.TunnelReturned?
    ensures Conserved(DeliverNext(s, i, valid, wakeOk, keepalive))
  {
    hide TasksHold, Conserved, FieldsHold, AuthNext, FinishNext, Inv, Busy;
    var t := SetStage(s, i, Delivered);
    HoldSet(s.tasks, i, t.tasks[i]);
    assert TasksHold(t.tasks) + multiset{} == TasksHold(t.tasks);
    QuietConserves(s, t);
    if !Cancelled(s, s.tasks[i]) {
      LiveMeansAttempt(s, i);
      match s.tasks[i].stage
      case AuthReturned(Some(r)) => AuthConserves(t, r);
      case TunnelReturned(true) => FinishConserves(t, valid, wakeOk, keepalive);
      case _ =>
    }
  }

  lemma TimerConserves(s: State)
    requires Conserved(s)
    ensures Conserved(TimerStopNext(s))
  {
    hide TasksHold, Ids, Conserved;
    Trade(s, TimerStopNext(s), One(s.p.timer), multiset{}, One(s.p.timer), multiset{});
  }

  lemma CallbackConserves(s: State, step: Step)
    requires Conserved(s) && Enabled(s, step)
    requires step.Connect? || step.NewSecrets? || step.Disconnect? || step.Terminate?
            || step.PeerQuit? || step.Finalize?
    ensures Conserved(Next(s, step))
  {
    hide TasksHold, Conserved, FieldsHold, Reset, Teardown, Cancel;
    StopConserves(s);
    match step
    case Connect(configOk) =>
      QuietConserves(Reset(s), ConnectNext(s, false));
      StartConserves(ConnectNext(s, false), LoggingIn);
    case NewSecrets(code) =>
      var t := s.(p := s.p.(awaitingChallenge := false));
      QuietConserves(s, t);
      StartConserves(t, Challenging(s.p.sessionId));
      var u := Start(t, Challenging(s.p.sessionId));
      QuietConserves(u, Record(u, ChallengeSent(s.p.sessionId)));
    case Finalize =>
    case PeerQuit => QuietConserves(s, Next(s, step));
    case Disconnect => QuietConserves(Teardown(Cancel(s)), Next(s, step));
    case Terminate => QuietConserves(Teardown(Cancel(s)), Next(s, step));
  }

  lemma StepConserves(s: State, step: Step)
    requires Conserved(s) && Inv(s) && Enabled(s, step)
    ensures Conserved(Next(s, step))
  {
    hide Conserved, Inv;
    match step
    case Publish(i) => PublishConserves(s, i);
    case Deliver(i, valid, wakeOk, keepalive) => DeliverConserves(s, i, valid, wakeOk, keepalive);
    case AuthReturn(i, reply) => ReturnConserves(s, i, reply);
    case Open(i, ok) => OpenConserves(s, i, ok);
    case Create(i, ok, name) => CreateConserves(s, i, ok, name);
    case Configure(i, ok) => ConfigureConserves(s, i, ok);
    case ReadGateway(i) => ReadConserves(s, i);
    case AddBypass(i, _, _) => BypassConserves(s, i, RouteOf(s, step));
    case TimerStops => TimerConserves(s);
    case _ => CallbackConserves(s, step);
  }

  lemma {:induction false} RunsConserve(run: seq<Step>)
    requires After(run).Some?
    ensures Conserved(After(run).value)
    decreases |run|
  {
    hide Conserved, Inv, Enabled, Next;
    if run == [] {
      InitConserves();
    } else {
      var before := run[..|run| - 1];
      RunsKeepInv(before);
      RunsConserve(before);
      StepConserves(After(before).value, run[|run| - 1]);
    }
  }

  lemma InitConserves()
    ensures Conserved(Init())
  {
  }

  lemma {:induction false} IdsOnce(n: nat, x: nat)
    ensures Ids(n)[x] == if x < n then 1 else 0
  {
    if n > 0 {
      IdsOnce(n - 1, x);
    }
  }

  /**
    In every run, every tunnel, descriptor, thread and timer ever opened is either held, in
    exactly one plugin field or by one worker, or was released, exactly once.
   */
  lemma HeldOnceOrReleasedOnce(run: seq<Step>, x: nat)
    requires After(run).Some? && x < After(run).value.w.nextId
    ensures var s := After(run).value;
            if x in Held(s) then Held(s)[x] == 1 && s.w.released[x] == 0
            else s.w.released[x] == 1
  {
    hide Held;
    RunsConserve(run);
    var s := After(run).value;
    IdsOnce(s.w.nextId, x);
    assert (Held(s) + s.w.released)[x] == Ids(s.w.nextId)[x];
  }

  /** After a teardown the fields hold nothing, and tearing down again takes no outside action. */
  lemma TeardownTwice(s: State)
    ensures Bare(Teardown(s).p) && FieldsHold(Teardown(s).p) == multiset{} && Teardown(s).p.bypass == None
    ensures Teardown(Teardown(s)) == Teardown(s)
  {
  }

  predicate WorkersEnded(s: State)
  {
    forall t :: t in s.tasks ==> t.stage.Delivered? || t.stage.TunnelReturned? || t.stage.AuthReturned?
  }

  /** When the workers of a run have all ended, stopping has given everything back. */
  lemma StoppedRunHoldsNothing(run: seq<Step>, quit: bool)
    requires After(run).Some? && WorkersEnded(After(run).value)
    ensures var s := StopNext(After(run).value, quit); Held(s) == multiset{} && s.w.released == Ids(s.w.nextId)
  {
    hide After, Conserved, StopNext, Held;
    RunsConserve(run);
    StoppedHoldsNothing(After(run).value, quit);
  }

  lemma StoppedHoldsNothing(s: State, quit: bool)
    requires Conserved(s) && WorkersEnded(s)
    ensures var t := StopNext(s, quit); Held(t) == multiset{} && t.w.released == Ids(t.w.nextId)
  {
    hide Conserved, FieldsHold, Teardown, Cancel, Ids, TasksHold;
    StopConserves(s);
    var c := Cancel(s);
    assert c.tasks == s.tasks && Teardown(c).tasks == s.tasks by { TeardownFrame(s); }
    TeardownTwice(c);
    NothingInTasks(s.tasks);
    HoldsNothing(Teardown(c), StopNext(s, quit));
  }

  lemma TeardownFrame(s: State)
    ensures Cancel(s).tasks == s.tasks && Teardown(Cancel(s)).tasks == s.tasks
  {
  }

  lemma HoldsNothing(s: State, t: State)
    requires Conserved(s) && FieldsHold(s.p) == multiset{} && TasksHold(s.tasks) == multiset{}
    requires s.p == t.p && s.tasks == t.tasks && s.w.released == t.w.released && s.w.nextId == t.w.nextId
    ensures Held(t) == multiset{} && t.w.released == Ids(t.w.nextId)
  {
    hide FieldsHold, TasksHold, Ids;
    assert multiset{} + s.w.released == s.w.released;
  }

  lemma {:induction false} NothingInTasks(tasks: seq<Task>)
    requires forall t :: t in tasks ==> StageHolds(t.stage) == multiset{}
    ensures TasksHold(tasks) == multiset{}
  {
    if tasks != [] {
      NothingInTasks(tasks[..|tasks| - 1]);
      assert tasks[|tasks| - 1] in tasks;
    }
  }

  /** A reply that asks for a verification code. */
  const PROMPT: AuthReply := AuthReply(Some(Gateway(443, None)), Some("continue"), false, None, Some("session"))

  /** Connect, a reply that asks for a code, and Disconnect, which leaves `awaiting_challenge` set. */
  lemma AwaitingAfterDisconnect() returns (run: seq<Step>)
    ensures After(run).Some?
    ensures var s := After(run).value;
            && s.phase == Idle && s.p.cancellable == None && s.p.awaitingChallenge && |s.tasks| == 1
            && (forall t :: t in s.w.cancelled ==> t < s.w.nextToken)
  {
    hide After, FieldsHold, Unrouted, Enabled, Next;
    var steps := [Connect(true), AuthReturn(0, Some(PROMPT)), Deliver(0, true, true, 0), Disconnect];
    NoStepsYet();
    FirstConnect();
    AfterStep([], steps[0]);
    var a := [] + [steps[0]];
    PromptComes(After(a).value);
    AfterStep(a, steps[1]);
    var b := a + [steps[1]];
    PromptIsSeen(After(b).value);
    AfterStep(b, steps[2]);
    var c := b + [steps[2]];
    StopAwaiting(After(c).value);
    AfterStep(c, steps[3]);
    run := c + [steps[3]];
  }

  lemma PromptComes(s: State)
    requires s.tasks == [Task(Some(0), LoggingIn)]
    ensures var step := AuthReturn(0, Some(PROMPT));
            Enabled(s, step) && Next(s, step) == s.(tasks := [Task(Some(0), AuthReturned(Some(PROMPT)))])
  {
  }

  lemma PromptIsSeen(s: State)
    requires s.tasks == [Task(Some(0), AuthReturned(Some(PROMPT)))] && s.phase == Attempt && s.w.cancelled == {}
    ensures Enabled(s, Deliver(0, true, true, 0))
    ensures var t := Next(s, Deliver(0, true, true, 0));
            && t.p.awaitingChallenge && |t.tasks| == 1 && t.phase == Attempt && t.w.cancelled == {}
            && t.p.cancellable == s.p.cancellable && t.w.nextToken == s.w.nextToken
  {
  }

  lemma StopAwaiting(s: State)
    requires s.p.awaitingChallenge && |s.tasks| == 1 && s.phase == Attempt && s.w.cancelled == {}
    requires s.p.cancellable == Some(0) && s.w.nextToken == 1
    ensures Enabled(s, Disconnect)
    ensures var t := Next(s, Disconnect);
            && t.phase == Idle && t.p.cancellable == None && t.p.awaitingChallenge && |t.tasks| == 1
            && (forall x :: x in t.w.cancelled ==> x < t.w.nextToken)
  {
    hide FieldsHold, Unrouted, One;
  }

  lemma NoStepsYet()
    ensures After([]) == Some(Init())
  {
  }

  lemma FirstConnect()
    ensures Enabled(Init(), Connect(true))
    ensures var s := Next(Init(), Connect(true));
            && s.phase == Attempt && s.tasks == [Task(Some(0), LoggingIn)] && s.p.cancellable == Some(0)
            && s.w.cancelled == {} && s.w.nextToken == 1 && s.p.bypass == None && s.w.overwritten == multiset{}
  {
    hide FieldsHold;
    assert [] + [Task(Some(0), LoggingIn)] == [Task(Some(0), LoggingIn)];
  }

  /**
    Secrets after that Disconnect would start a task that nothing can cancel: a later attempt
    runs beside it, with two live tasks.
   */
  lemma SecretsAfterDisconnectEscape(code: string) returns (run: seq<Step>)
    requires code != ""
    ensures After(run).Some? && After(run).value.phase == Idle
    ensures var t := ConnectNext(SecretsNext(After(run).value, code), true);
            Live(t, 1) && Live(t, 2) && t.tasks[1].token == None
  {
    hide After, FieldsHold;
    run := AwaitingAfterDisconnect();
  }
}
