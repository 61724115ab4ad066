/**
  A run in which a cancelled worker adds its bypass route for the address that a later attempt
  has discovered, because it reads the address only then.
 */
module AddressWitness {
  import opened Wrappers
  import opened Bits
  import opened Ipv4Text
  import opened Session
  import opened Conservation
  import opened AuthSafety
  import opened BypassAddress
  import opened RouteWitnesses

  /** A first attempt whose worker has its device, and then a Disconnect and a Connect. */
  lemma FirstAttempt(a: word) returns (one: seq<Step>, run: seq<Step>)
    ensures After(one).Some? && |After(one).value.tasks| == 2 && OpeningTunnel(After(one).value.tasks[1].stage)
    ensures After(one).value.p.gatewayIp == Some(Ntop(a))
    ensures run == one + [Disconnect] + [Connect(true)] && After(run).Some? && NoConnect(one, 1, |one|)
    ensures LoginBesideWorker(After(run).value, After(one).value.tasks[1].stage)
    ensures var stage := After(one).value.tasks[1].stage; stage.Created? && stage.gateway.None? && !stage.bypassed
  {
    hide After, Enabled, Next, Inv, WorkersTakeTurns, OneWorks, Ntop;
    NothingYet();
    FirstConnect();
    FirstLogin();
    Extend([], Connect(true));
    one := GetsToDevice([] + [Connect(true)], a);
    var s := After(one).value;
    assert s.tasks[..1][0].stage.Delivered?;
    RunsKeepInv(one);
    FirstDisconnect(s);
    AfterStep(one, Disconnect);
    SecondConnect(Next(s, Disconnect));
    AfterStep(one + [Disconnect], Connect(true));
    run := one + [Disconnect] + [Connect(true)];
  }

  /** The second login succeeds, and its reply names another gateway. */
  lemma SecondLogin(s: State, worker: Stage, b: word)
    requires LoginBesideWorker(s, worker)
    ensures Enabled(s, AuthReturn(2, Some(Success(b))))
    ensures Enabled(Next(s, AuthReturn(2, Some(Success(b)))), Deliver(2, true, true, 0))
    ensures var t := Next(Next(s, AuthReturn(2, Some(Success(b)))), Deliver(2, true, true, 0));
            |t.tasks| == 4 && t.tasks[1].stage == worker && t.p.gatewayIp == Some(Ntop(b))
  {
    hide Ntop, FieldsHold, Unrouted;
  }

  /** The cancelled worker reads the address, and can add its route. */
  lemma LateRead(s: State, b: word)
    requires |s.tasks| == 4 && s.tasks[1].stage.Created? && s.tasks[1].stage.gateway.None? && !s.tasks[1].stage.bypassed
    requires s.p.gatewayIp == Some(Ntop(b))
    ensures Enabled(s, ReadGateway(1)) && Enabled(Next(s, ReadGateway(1)), AddBypass(1, "eth0", 0))
    ensures RouteOf(Next(s, ReadGateway(1)), AddBypass(1, "eth0", 0)).dest == b
  {
    hide Ntop, Pton;
    PtonOfNtop(b);
  }

  /**
    The worker was started by the attempt that found the gateway `a`, and can add a route for
    `b`, which the next attempt found.
   */
  lemma CancelledWorkerReadsLate(a: word, b: word) returns (run: seq<Step>, step: Step, k: nat)
    requires a != b
    ensures After(run).Some? && step.AddBypass? && Enabled(After(run).value, step) && Starts(run, k, step.i)
    ensures Found(Seen(run, k + 1)).Some? && Names(Found(Seen(run, k + 1)).value, a)
    ensures RouteOf(After(run).value, step).dest == b
  {
    hide After, Enabled, Next, Ntop, Pton, Found;
    var one, two := FirstAttempt(a);
    var worker := After(one).value.tasks[1].stage;
    var back, seen := AuthReturn(2, Some(Success(b))), Deliver(2, true, true, 0);
    SecondLogin(After(two).value, worker, b);
    AfterStep(two, back);
    AfterStep(two + [back], seen);
    var three := two + [back] + [seen];
    LateRead(After(three).value, b);
    AfterStep(three, ReadGateway(1));
    run, step := three + [ReadGateway(1)], AddBypass(1, "eth0", 0);
    k := WhenStarted(one, 1);
    OwnDiscoveryNow(one, k, a);
    assert run[..k] == one[..k] && run[..k + 1] == one[..k + 1];
  }

  lemma OwnDiscoveryNow(run: seq<Step>, k: nat, a: word)
    requires After(run).Some? && |After(run).value.tasks| == 2 && OpeningTunnel(After(run).value.tasks[1].stage)
    requires After(run).value.p.gatewayIp == Some(Ntop(a)) && Starts(run, k, 1) && NoConnect(run, k + 1, |run|)
    ensures var g := Found(After(run[..k + 1]).value.w.history); g.Some? && Names(g.value, a)
  {
    hide After, Ntop, Pton, Found;
    OwnDiscovery(run, k, 1);
    RunsKnow(run);
    PtonOfNtop(a);
  }
}
