/**
  Two runs in which a bypass route is lost although no two workers ever overlap: one through
  the next attempt, one through a signal.
 */
module RouteWitnesses {
  import opened Wrappers
  import opened Bits
  import opened Ipv4Text
  import opened Session
  import opened Conservation
  import opened LostRoutes
  import opened RouteDiscipline

  /** No two workers are opening a tunnel. */
  predicate OneWorks(s: State)
  {
    forall i, j :: 0 <= i < |s.tasks| && 0 <= j < |s.tasks| && Working(s.tasks[i].stage) && Working(s.tasks[j].stage)
      ==> i == j
  }

  /** At no time of the run do two workers overlap. */
  predicate WorkersTakeTurns(run: seq<Step>)
  {
    forall k :: 0 <= k <= |run| && After(run[..k]).Some? ==> OneWorks(After(run[..k]).value)
  }

  lemma Extend(run: seq<Step>, step: Step)
    requires After(run).Some? && WorkersTakeTurns(run) && Enabled(After(run).value, step)
    requires OneWorks(Next(After(run).value, step))
    ensures After(run + [step]) == Some(Next(After(run).value, step)) && WorkersTakeTurns(run + [step])
  {
    hide After, Enabled, Next, OneWorks;
    AfterStep(run, step);
    var more := run + [step];
    forall k | 0 <= k <= |more| && After(more[..k]).Some? ensures OneWorks(After(more[..k]).value) {
      if k <= |run| {
        assert more[..k] == run[..k];
      } else {
        assert more[..k] == more;
      }
    }
  }

  /** A state in which the newest task is a login that can still be cancelled. */
  predicate LoggingInLast(s: State)
  {
    && s.phase == Attempt && s.tasks != [] && s.p.cancellable.Some? && s.p.cancellable.value !in s.w.cancelled
    && s.tasks[|s.tasks| - 1] == Task(s.p.cancellable, LoggingIn)
    && forall i :: 0 <= i < |s.tasks| ==> !Working(s.tasks[i].stage)
  }

  /** A login that succeeds at once and names the gateway's address. */
  function Success(gateway: word): AuthReply
  {
    AuthReply(Some(Gateway(443, Some(Ntop(gateway)))), Some("done"), true, Some("key"), None)
  }

  /** A worker whose next step can be to add its route for an address. */
  predicate AboutToAdd(stage: Stage, gateway: word)
  {
    stage.Created? && stage.gateway == Some(gateway) && !stage.bypassed
  }

  /** The login succeeds, and the worker it starts has a device and has read the gateway address. */
  lemma GetsToRead(run: seq<Step>, gateway: word) returns (more: seq<Step>)
    requires After(run).Some? && WorkersTakeTurns(run) && LoggingInLast(After(run).value)
    ensures After(more).Some? && WorkersTakeTurns(more)
    ensures var s, t := After(run).value, After(more).value; var n := |s.tasks|;
            && |t.tasks| == n + 1 && t.tasks[..n] == s.tasks[n - 1 := s.tasks[n - 1].(stage := Delivered)]
            && AboutToAdd(t.tasks[n].stage, gateway)
            && t.p.bypass == s.p.bypass && t.phase == Attempt && t.w.routes == s.w.routes
  {
    hide After, WorkersTakeTurns, OneWorks, Ntop;
    var n := |After(run).value.tasks|;
    var last := GetsToDevice(run, gateway);
    TurnNow(last);
    PtonOfNtop(gateway);
    ReadStep(After(last).value, n, gateway);
    Extend(last, ReadGateway(n));
    more := last + [ReadGateway(n)];
  }

  /** The login succeeds, and the worker it starts has a device. */
  lemma GetsToDevice(run: seq<Step>, gateway: word) returns (more: seq<Step>)
    requires After(run).Some? && WorkersTakeTurns(run) && LoggingInLast(After(run).value)
    ensures After(more).Some? && WorkersTakeTurns(more)
    ensures run <= more && forall j :: |run| <= j < |more| ==> !more[j].Connect?
    ensures var s, t := After(run).value, After(more).value; var n := |s.tasks|;
            && |t.tasks| == n + 1 && t.tasks[..n] == s.tasks[n - 1 := s.tasks[n - 1].(stage := Delivered)]
            && t.tasks[n].stage.Created? && t.tasks[n].stage.gateway == None && !t.tasks[n].stage.bypassed
            && t.p.gatewayIp == Some(Ntop(gateway)) && t.p.bypass == s.p.bypass && t.phase == Attempt
            && t.w.routes == s.w.routes
  {
    hide After, WorkersTakeTurns, OneWorks, Ntop;
    var n := |After(run).value.tasks|;
    var back, seen := AuthReturn(n - 1, Some(Success(gateway))), Deliver(n - 1, true, true, 0);
    LoginStep(After(run).value, gateway, back, seen);
    Extend(run, back);
    Extend(run + [back], seen);
    var middle := run + [back] + [seen];
    var open, create := Open(n, true), Create(n, true, "snx-tun");
    DeviceStep(After(middle).value, open, create);
    Extend(middle, open);
    Extend(middle + [open], create);
    more := middle + [open] + [create];
  }

  lemma LoginStep(s: State, gateway: word, back: Step, seen: Step)
    requires LoggingInLast(s)
    requires back == AuthReturn(|s.tasks| - 1, Some(Success(gateway))) && seen == Deliver(|s.tasks| - 1, true, true, 0)
    ensures Enabled(s, back) && OneWorks(Next(s, back)) && Enabled(Next(s, back), seen)
    ensures var t, n := Next(Next(s, back), seen), |s.tasks|;
            && OneWorks(t) && |t.tasks| == n + 1
            && t.tasks[..n] == s.tasks[n - 1 := s.tasks[n - 1].(stage := Delivered)]
            && t.tasks[n].stage.Connecting? && t.p.gatewayIp == Some(Ntop(gateway)) && t.p.bypass == s.p.bypass
            && t.phase == Attempt && t.w.routes == s.w.routes
  {
    hide FieldsHold, One, Both, Ntop;
  }

  lemma DeviceStep(s: State, open: Step, create: Step)
    requires s.tasks != [] && s.tasks[|s.tasks| - 1].stage.Connecting? && OneWorks(s)
    requires open == Open(|s.tasks| - 1, true) && create == Create(|s.tasks| - 1, true, "snx-tun")
    ensures Enabled(s, open) && OneWorks(Next(s, open)) && Enabled(Next(s, open), create)
    ensures var t, n := Next(Next(s, open), create), |s.tasks| - 1;
            && OneWorks(t) && |t.tasks| == n + 1 && t.tasks[..n] == s.tasks[..n]
            && t.tasks[n].stage.Created? && t.tasks[n].stage.gateway == None && !t.tasks[n].stage.bypassed
            && t.p == s.p && t.phase == s.phase && t.w.routes == s.w.routes
  {
    hide FieldsHold, One, Both;
    var t := Next(Next(s, open), create);
    forall i | 0 <= i < |t.tasks| ensures Working(t.tasks[i].stage) == Working(s.tasks[i].stage) {
    }
  }

  lemma ReadStep(s: State, i: nat, gateway: word)
    requires At(s, i) && s.tasks[i].stage.Created? && s.tasks[i].stage.gateway == None && OneWorks(s)
    requires GatewayAddress(s.p) == Some(gateway)
    ensures Enabled(s, ReadGateway(i)) && OneWorks(Next(s, ReadGateway(i)))
    ensures Next(s, ReadGateway(i)) == SetStage(s, i, s.tasks[i].stage.(gateway := Some(gateway)))
  {
    var t := Next(s, ReadGateway(i));
    forall j | 0 <= j < |t.tasks| ensures Working(t.tasks[j].stage) == Working(s.tasks[j].stage) {
    }
  }

  /** A first attempt up to the point where its worker adds a route. */
  lemma FirstWorker(b: Bypass) returns (run: seq<Step>)
    ensures After(run).Some? && WorkersTakeTurns(run)
    ensures var s := After(run).value;
            && s.phase == Attempt && |s.tasks| == 2 && s.tasks[0].stage.Delivered?
            && AboutToAdd(s.tasks[1].stage, b.dest)
            && s.p.bypass == None
  {
    hide After, Enabled, WorkersTakeTurns, OneWorks;
    NothingYet();
    FirstConnect();
    FirstLogin();
    Extend([], Connect(true));
    run := GetsToRead([] + [Connect(true)], b.dest);
    assert After(run).value.tasks[..1][0].stage.Delivered?;
  }

  lemma FirstLogin()
    ensures LoggingInLast(Next(Init(), Connect(true))) && OneWorks(Next(Init(), Connect(true)))
  {
    hide FieldsHold, One;
    FirstConnect();
  }

  /**
    A worker that a Disconnect has cancelled may add its route after the teardown of the next
    Connect, and end; the next worker, whose gateway has another address, then records over
    it. No two workers ever overlapped, yet the first route stays in the kernel.
   */
  lemma TakingTurnsIsNotEnough(b: Bypass, c: Bypass) returns (run: seq<Step>)
    requires b.dest != c.dest
    ensures After(run).Some? && WorkersTakeTurns(run)
    ensures var s := After(run).value;
            && s.p.bypass == Some(c) && b.dest in s.w.routes && s.w.routes[b.dest] == b
            && LeftBehind(run, b.dest) && !NothingLost(run)
  {
    hide After, Enabled, Next, Inv, WorkersTakeTurns, OneWorks, NothingLost, LeftBehind, AwaitsTeardown, Pending;
    var one := FirstWorker(b);
    var s := After(one).value;
    RunsKeepInv(one);
    FirstDisconnect(s);
    Extend(one, Disconnect);
    SecondConnect(Next(s, Disconnect));
    Extend(one + [Disconnect], Connect(true));
    var two := one + [Disconnect] + [Connect(true)];
    var worker, add := s.tasks[1].stage, AddBypass(1, b.ifname, b.gateway);
    LateAdd(After(two).value, worker, b);
    Extend(two, add);
    var three := two + [add];
    LateEnd(After(three).value, worker.(bypassed := true));
    Extend(three, Configure(1, false));
    var four := three + [Configure(1, false)];
    var five := GetsToRead(four, c.dest);
    TurnNow(five);
    SecondAdd(After(five).value, c);
    Extend(five, AddBypass(3, c.ifname, c.gateway));
    run := five + [AddBypass(3, c.ifname, c.gateway)];
    RoutesByEvents(run, b.dest);
    LostExactly(run);
  }

  /**
    A signal that arrives while the worker of the only attempt is about to add its route: the
    route is added after the last teardown, and nothing that can still happen empties the table.
   */
  lemma SignalLosesRoute(b: Bypass) returns (run: seq<Step>)
    ensures After(run).Some? && WorkersTakeTurns(run) && !NothingLost(run)
    ensures After(run).value.p.bypass == Some(b) && After(run).value.phase == Quit
    ensures forall more :: After(run + more).Some? ==> !TableEmpty(After(run + more).value)
  {
    hide After, Enabled, Next, WorkersTakeTurns, OneWorks, NothingLost, TableEmpty, CanTearDown, Pending;
    var one := FirstWorker(b);
    var s := After(one).value;
    TurnNow(one);
    var add := AddBypass(1, b.ifname, b.gateway);
    SignalStep(s, s.tasks[1].stage);
    Extend(one, Terminate);
    var two := one + [Terminate];
    AddAfterSignal(After(two).value, b);
    Extend(two, add);
    run := two + [add];
    forall more | After(run + more).Some? ensures !TableEmpty(After(run + more).value) {
      StrandedForGood(run, more);
    }
    RecordByEvents(run);
    LostExactly(run);
  }

  lemma SignalStep(s: State, worker: Stage)
    requires s.phase == Attempt && |s.tasks| == 2 && s.tasks[1].stage == worker && OneWorks(s)
    ensures Enabled(s, Terminate) && OneWorks(Next(s, Terminate))
    ensures var t := Next(s, Terminate);
            && t.phase == Quit && |t.tasks| == 2 && t.tasks[1].stage == worker
            && t.p.bypass == None
  {
    hide FieldsHold, One, Unrouted;
  }

  lemma AddAfterSignal(s: State, b: Bypass)
    requires s.phase == Quit && |s.tasks| == 2 && AboutToAdd(s.tasks[1].stage, b.dest) && OneWorks(s)
    ensures Enabled(s, AddBypass(1, b.ifname, b.gateway))
    ensures var t := Next(s, AddBypass(1, b.ifname, b.gateway));
            && OneWorks(t) && t.phase == Quit && t.p.bypass == Some(b)
            && !CanTearDown(t)
  {
    hide FieldsHold, Both, GatewayAddress;
    var t := Next(s, AddBypass(1, b.ifname, b.gateway));
    assert t.tasks[1] in t.tasks;
    forall i | 0 <= i < |t.tasks| ensures Working(t.tasks[i].stage) == Working(s.tasks[i].stage) {
    }
  }

  lemma TurnNow(run: seq<Step>)
    requires After(run).Some? && WorkersTakeTurns(run)
    ensures OneWorks(After(run).value)
  {
    hide After, OneWorks;
    assert run[..|run|] == run;
  }

  lemma NothingYet()
    ensures After([]) == Some(Init()) && WorkersTakeTurns([])
  {
    var run: seq<Step> := [];
    assert forall k :: 0 <= k <= |run| ==> run[..k] == run;
  }

  /** A login beside the cancelled worker of the attempt before. */
  predicate LoginBesideWorker(s: State, worker: Stage)
  {
    && s.phase == Attempt && |s.tasks| == 3 && s.tasks[0].stage.Delivered? && s.tasks[1].stage == worker
    && s.p.cancellable.Some? && s.p.cancellable.value !in s.w.cancelled
    && s.tasks[2] == Task(s.p.cancellable, LoggingIn)
  }

  lemma FirstDisconnect(s: State)
    requires s.phase == Attempt && |s.tasks| == 2 && s.tasks[0].stage.Delivered? && Working(s.tasks[1].stage) && Inv(s)
    ensures Enabled(s, Disconnect) && OneWorks(Next(s, Disconnect)) && TokensInv(Next(s, Disconnect))
    ensures var t := Next(s, Disconnect); t.phase == Idle && t.tasks == s.tasks
  {
    hide FieldsHold, Both, Unrouted, ShapeInv;
    StopKeepsInv(s, false);
  }

  lemma SecondConnect(s: State)
    requires s.phase == Idle && |s.tasks| == 2 && s.tasks[0].stage.Delivered? && Working(s.tasks[1].stage)
    requires TokensInv(s)
    ensures Enabled(s, Connect(true)) && OneWorks(Next(s, Connect(true)))
    ensures LoginBesideWorker(Next(s, Connect(true)), s.tasks[1].stage)
    ensures Next(s, Connect(true)).p.bypass == None
  {
    hide FieldsHold, Both, Unrouted;
  }

  /** What the worker that was cancelled still does. */
  lemma LateAdd(s: State, worker: Stage, b: Bypass)
    requires LoginBesideWorker(s, worker) && AboutToAdd(worker, b.dest) && s.p.bypass == None
    ensures Enabled(s, AddBypass(1, b.ifname, b.gateway))
    ensures var t := Next(s, AddBypass(1, b.ifname, b.gateway));
            && OneWorks(t) && LoginBesideWorker(t, worker.(bypassed := true))
            && t.p.bypass == Some(b) && b.dest in t.w.routes && t.w.routes[b.dest] == b
  {
    hide FieldsHold, Both, GatewayAddress;
  }

  lemma LateEnd(s: State, worker: Stage)
    requires LoginBesideWorker(s, worker) && worker.Created?
    ensures Enabled(s, Configure(1, false))
    ensures var t := Next(s, Configure(1, false));
            && OneWorks(t) && LoggingInLast(t) && |t.tasks| == 3
            && t.p.bypass == s.p.bypass && t.w.routes == s.w.routes
  {
    hide FieldsHold, Both, GatewayAddress;
  }

  lemma SecondAdd(s: State, c: Bypass)
    requires |s.tasks| == 4 && AboutToAdd(s.tasks[3].stage, c.dest) && OneWorks(s)
    ensures Enabled(s, AddBypass(3, c.ifname, c.gateway)) && OneWorks(Next(s, AddBypass(3, c.ifname, c.gateway)))
    ensures var t := Next(s, AddBypass(3, c.ifname, c.gateway));
            t.p.bypass == Some(c) && t.w.routes == s.w.routes[c.dest := c]
  {
    hide FieldsHold, Both, GatewayAddress;
    var t := Next(s, AddBypass(3, c.ifname, c.gateway));
    forall i | 0 <= i < |t.tasks| ensures Working(t.tasks[i].stage) == Working(s.tasks[i].stage) {
    }
  }
}
