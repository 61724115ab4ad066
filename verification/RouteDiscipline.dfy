/**
  A sufficient discipline for bypass routes: whatever ends an attempt waits for the workers.
 */
module RouteDiscipline {
  import opened Wrappers
  import opened Bits
  import opened Session
  import opened Conservation
  import opened BypassRoute
  import opened LostRoutes

  /** A worker is opening a tunnel, cancelled or not. */
  predicate Working(stage: Stage)
  {
    stage.Connecting? || stage.Opened? || stage.Created? || stage.Configured?
  }

  predicate NoneWorking(s: State) { forall t :: t in s.tasks ==> !Working(t.stage) }

  /**
    Connect and the signal wait for workers that are opening a tunnel, and the main loop is
    quit only when every callback has run.
   */
  predicate Waits(s: State, step: Step)
  {
    && (step.Connect? || step.Terminate? ==> NoneWorking(s))
    && (step.PeerQuit? ==> AllDelivered(s))
  }

  predicate Disciplined(run: seq<Step>)
  {
    forall k :: 0 <= k < |run| && After(run[..k]).Some? ==> Waits(After(run[..k]).value, run[k])
  }

  /** Before its add a worker finds the record empty; only the last task can be at work. */
  predicate Orderly(s: State)
  {
    && (forall i :: 0 <= i < |s.tasks| && Working(s.tasks[i].stage) ==> i == |s.tasks| - 1)
    && (s.tasks != [] && BeforeAdd(s.tasks[|s.tasks| - 1].stage) ==> s.p.bypass == None)
    && (Busy(s) && InAuth(s.tasks[|s.tasks| - 1].stage) ==> s.p.bypass == None)
    && (s.phase == Attempt && s.p.awaitingChallenge ==> NoneWorking(s) && s.p.bypass == None)
    && (s.phase == Quit ==> NoneWorking(s) && (s.p.bypass == None || AllDelivered(s)))
  }

  predicate BeforeAdd(stage: Stage)
  {
    stage.Connecting? || stage.Opened? || (stage.Created? && !stage.bypassed)
  }

  predicate InAuth(stage: Stage) { stage.LoggingIn? || stage.Challenging? || stage.AuthReturned? }

  lemma StartedOrderly(s: State, t: State)
    requires NoneWorking(s) && s.p.bypass == None && t.p.bypass == None
    requires |s.tasks| <= |t.tasks| <= |s.tasks| + 1 && t.tasks[..|s.tasks|] == s.tasks
    requires t.phase != Quit && (t.phase == Attempt && t.p.awaitingChallenge ==> t.tasks == s.tasks)
    ensures Orderly(t)
  {
    forall i | 0 <= i < |s.tasks| ensures !Working(t.tasks[i].stage) {
      assert t.tasks[i] == t.tasks[..|s.tasks|][i] && s.tasks[i] in s.tasks;
    }
  }

  lemma StopOrderly(s: State, t: State)
    requires Orderly(s) && t.tasks == s.tasks && t.p.bypass == None && t.phase != Attempt
    requires t.phase == Quit ==> NoneWorking(s)
    ensures Orderly(t)
  {
  }

  /** A worker moves on; none that is still before its add appears. */
  lemma StagingOrderly(s: State, t: State, i: nat, stage: Stage)
    requires Inv(s) && Orderly(s) && At(s, i) && !s.tasks[i].stage.Delivered?
    requires t.tasks == SetStage(s, i, stage).tasks && t.w.cancelled == s.w.cancelled
    requires t.phase == s.phase && t.p.awaitingChallenge == s.p.awaitingChallenge
    requires Working(stage) ==> Working(s.tasks[i].stage)
    requires InAuth(stage) ==> InAuth(s.tasks[i].stage)
    requires t.p.bypass == s.p.bypass || (Working(s.tasks[i].stage) && Working(stage))
    requires BeforeAdd(stage) ==> BeforeAdd(s.tasks[i].stage) && t.p.bypass == s.p.bypass
    ensures Orderly(t)
  {
    hide Inv;
    StagingLive(s, i, stage, t);
    forall j | 0 <= j < |t.tasks| && Working(t.tasks[j].stage) ensures j == |t.tasks| - 1 {
      assert Working(s.tasks[j].stage);
    }
    assert s.tasks[i] in s.tasks;
    if NoneWorking(s) {
      forall x | x in t.tasks ensures !Working(x.stage) {
        var j :| 0 <= j < |t.tasks| && t.tasks[j] == x;
        assert s.tasks[j] in s.tasks;
      }
    }
  }

  lemma StagingLive(s: State, i: nat, stage: Stage, t: State)
    requires Inv(s) && At(s, i) && !s.tasks[i].stage.Delivered?
    requires t.tasks == SetStage(s, i, stage).tasks && t.w.cancelled == s.w.cancelled
    ensures Busy(t) ==> Busy(s)
  {
    StagingKeepsTokens(s, i, stage);
    SameTasks(SetStage(s, i, stage), t);
  }

  lemma WorkerOrderly(s: State, step: Step)
    requires Inv(s) && Orderly(s) && Enabled(s, step)
    requires WorkerStep(step)
    ensures Orderly(Next(s, step))
  {
    hide Inv, Orderly, Next;
    WorkerFrame(s, step);
    WorkerMovesOn(s, step);
    StagingOrderly(s, Next(s, step), step.i, Next(s, step).tasks[step.i].stage);
  }

  lemma WorkerMovesOn(s: State, step: Step)
    requires Enabled(s, step) && WorkerStep(step)
    ensures var t := Next(s, step);
            var a, b := s.tasks[step.i].stage, t.tasks[step.i].stage;
            && !a.Delivered? && (Working(b) ==> Working(a)) && (InAuth(b) ==> InAuth(a))
            && (t.p.bypass == s.p.bypass || (Working(a) && Working(b)))
            && (BeforeAdd(b) ==> BeforeAdd(a) && t.p.bypass == s.p.bypass)
  {
    hide GatewayAddress, One, Both;
  }

  lemma LiveAuth(s: State, i: nat)
    requires Inv(s) && Orderly(s) && s.phase != Quit && Live(s, i) && !Working(s.tasks[i].stage)
    ensures NoneWorking(SetStage(s, i, Delivered))
    ensures InAuth(s.tasks[i].stage) ==> s.p.bypass == None
  {
    LiveMeansAttempt(s, i);
    var t := SetStage(s, i, Delivered);
    forall j | 0 <= j < |t.tasks| ensures !Working(t.tasks[j].stage) {
      assert j != i ==> t.tasks[j] == s.tasks[j];
    }
  }

  lemma DeliverOrderly(s: State, i: nat, valid: bool, wakeOk: bool, keepalive: nat)
    requires Inv(s) && Orderly(s) && Enabled(s, Deliver(i, valid, wakeOk, keepalive))
    ensures Orderly(DeliverNext(s, i, valid, wakeOk, keepalive))
  {
    hide Inv, Orderly, Busy, FieldsHold;
    var t, u := SetStage(s, i, Delivered), DeliverNext(s, i, valid, wakeOk, keepalive);
    StagingOrderly(s, t, i, Delivered);
    if !Cancelled(s, s.tasks[i]) {
      LiveAuth(s, i);
      LiveMeansAttempt(s, i);
      LastDelivered(s, i);
      match s.tasks[i].stage
      case AuthReturned(Some(r)) => StartedOrderly(t, AuthNext(t, r));
      case TunnelReturned(true) =>
        SameTasks(t, u);
        FinishOrderly(t, u);
      case _ =>
    }
  }

  lemma FinishOrderly(s: State, t: State)
    requires NoneWorking(s) && t.tasks == s.tasks && !Busy(t)
    requires t.phase == Attempt && !t.p.awaitingChallenge
    ensures Orderly(t)
  {
    forall i | 0 <= i < |t.tasks| ensures !Working(t.tasks[i].stage) {
      assert t.tasks[i] in s.tasks;
    }
  }

  lemma SecretsOrderly(s: State, code: string)
    requires Orderly(s) && s.phase == Attempt
    ensures Orderly(SecretsNext(s, code))
  {
    hide Busy;
    if s.p.awaitingChallenge && code != "" {
      StartedOrderly(s, SecretsNext(s, code));
    }
  }

  lemma ConnectOrderly(s: State, configOk: bool)
    requires NoneWorking(s)
    ensures Orderly(ConnectNext(s, configOk))
  {
    hide FieldsHold, One, Orderly;
    var t := ConnectNext(s, configOk);
    StartedOrderly(s.(p := s.p.(bypass := None)), t);
  }

  lemma StepOrderly(s: State, step: Step)
    requires Inv(s) && Orderly(s) && Enabled(s, step) && Waits(s, step)
    ensures Orderly(Next(s, step))
  {
    hide Inv, Orderly, ConnectNext, SecretsNext, DeliverNext, FieldsHold, One, Both;
    match step
    case Connect(configOk) => ConnectOrderly(s, configOk);
    case NewSecrets(code) => SecretsOrderly(s, code);
    case Disconnect => StopOrderly(s, Next(s, step));
    case Terminate => StopOrderly(s, Next(s, step));
    case PeerQuit => QuietOrderly(s, Next(s, step));
    case Finalize => StopOrderly(s, Next(s, step));
    case TimerStops => QuietOrderly(s, Next(s, step));
    case Deliver(i, valid, wakeOk, keepalive) => DeliverOrderly(s, i, valid, wakeOk, keepalive);
    case _ => WorkerOrderly(s, step);
  }

  lemma QuietOrderly(s: State, t: State)
    requires Orderly(s) && t.tasks == s.tasks && t.w.cancelled == s.w.cancelled && t.p.bypass == s.p.bypass
    requires t.p.awaitingChallenge == s.p.awaitingChallenge
    requires t.phase == s.phase || (t.phase == Quit && AllDelivered(s))
    ensures Orderly(t)
  {
    SameTasks(s, t);
  }

  lemma AddFindsNone(s: State, step: Step)
    requires Orderly(s) && Enabled(s, step) && step.AddBypass?
    ensures s.p.bypass == None
  {
  }

  lemma {:induction false} RunsAreOrderly(run: seq<Step>)
    requires After(run).Some? && Disciplined(run)
    ensures Orderly(After(run).value) && After(run).value.w.overwritten == multiset{}
    decreases |run|
  {
    hide Inv, Orderly, Enabled, Next, Waits;
    if run == [] {
      InitOrderly();
    } else {
      var before, step := run[..|run| - 1], run[|run| - 1];
      assert forall k :: 0 <= k < |before| ==> before[..k] == run[..k] && before[k] == run[k];
      RunsAreOrderly(before);
      RunsKeepInv(before);
      StepOrderly(After(before).value, step);
      OverwriteStep(After(before).value, step);
      EmptySum(After(before).value.w.overwritten, After(before).value.p.bypass);
      if step.AddBypass? {
        AddFindsNone(After(before).value, step);
      }
    }
  }

  lemma InitOrderly()
    ensures Orderly(Init())
  {
  }

  /** If Connect, signals and the end of the main loop wait for the workers, no route is lost. */
  lemma DisciplinedRunsLoseNothing(run: seq<Step>)
    requires After(run).Some? && Disciplined(run)
    ensures NothingLost(run)
  {
    hide After, LeftBehind, Separated, NothingLost;
    RunsAreOrderly(run);
    RecordByEvents(run);
    forall d: word ensures !LeftBehind(run, d) {
      SeparatedLeavesNothing(run, d);
    }
    LostExactly(run);
  }
}
