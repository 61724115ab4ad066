/**
  The gateway bypass route over whole runs: a route that is added is deleted again by the next
  teardown, unless another route is recorded over it first.
 */
module BypassRoute {
  import opened Wrappers
  import opened Session

  // ---- what one step does to the record and the ledgers ----

  /** The steps in which `teardown_tunnel` runs. */
  predicate TearsDown(s: State, step: Step)
    requires Enabled(s, step)
  {
    match step
    case Connect(_) => true
    case Disconnect => true
    case Terminate => true
    case Finalize => true
    case Deliver(i, valid, _, _) =>
      !Cancelled(s, s.tasks[i]) && s.tasks[i].stage == TunnelReturned(true) && (GatewayAddress(s.p).None? || !valid)
    case _ => false
  }

  /** What a step does to the record and the ledgers: it tears down, adds a route, or neither. */
  predicate Effect(s: State, t: State, torn: bool, route: Option<Bypass>)
  {
    && t.p.bypass == (if torn then None else if route.Some? then route else s.p.bypass)
    && t.w.deleted == (if torn then s.w.deleted + One(s.p.bypass) else s.w.deleted)
    && t.w.overwritten == (if route.Some? then s.w.overwritten + One(s.p.bypass) else s.w.overwritten)
    && t.w.added == (if route.Some? then s.w.added + multiset{route.value} else s.w.added)
    && t.w.routes == (if torn then Unrouted(s.w.routes, s.p.bypass)
                      else if route.Some? then s.w.routes[route.value.dest := route.value] else s.w.routes)
  }

  lemma StopEffect(s: State)
    ensures Effect(s, Teardown(s), true, None) && Effect(s, Reset(s), true, None)
    ensures Effect(s, StopNext(s, true), true, None) && Effect(s, StopNext(s, false), true, None)
    ensures Effect(s, ConnectNext(s, true), true, None) && Effect(s, ConnectNext(s, false), true, None)
  {
    hide FieldsHold, One, Unrouted;
  }

  lemma DeliverEffect(s: State, i: nat, valid: bool, wakeOk: bool, keepalive: nat)
    requires Enabled(s, Deliver(i, valid, wakeOk, keepalive))
    ensures var step := Deliver(i, valid, wakeOk, keepalive);
            Effect(s, DeliverNext(s, i, valid, wakeOk, keepalive), TearsDown(s, step), None)
  {
    hide Effect, AuthNext, FinishNext, GatewayAddress;
    var t := SetStage(s, i, Delivered);
    SameEffect(s, t);
    if !Cancelled(s, s.tasks[i]) {
      match s.tasks[i].stage
      case AuthReturned(Some(r)) => AuthEffect(t, r);
      case TunnelReturned(true) => FinishEffect(t, valid, wakeOk, keepalive);
      case _ =>
    }
    EffectOf(s, t);
  }

  lemma AuthEffect(s: State, r: AuthReply)
    ensures Effect(s, AuthNext(s, r), false, None)
  {
  }

  lemma FinishEffect(s: State, valid: bool, wakeOk: bool, keepalive: nat)
    ensures Effect(s, FinishNext(s, valid, wakeOk, keepalive), GatewayAddress(s.p).None? || !valid, None)
  {
    hide FieldsHold, One, Unrouted, GatewayAddress;
  }

  /** Only the record and the ledgers matter. */
  lemma EffectOf(s: State, t: State)
    requires t.p == s.p && t.w == s.w
    ensures forall u, torn, route :: Effect(t, u, torn, route) ==> Effect(s, u, torn, route)
  {
    hide One, Unrouted;
  }

  lemma WorkerEffect(s: State, step: Step)
    requires Enabled(s, step) && WorkerStep(step)
    ensures Effect(s, Next(s, step), false, if step.AddBypass? then Some(RouteOf(s, step)) else None)
  {
    hide Effect, Both, GatewayAddress;
    var t := Next(s, step);
    if step.AddBypass? {
      AddEffect(s, t, RouteOf(s, step));
    } else {
      SameEffect(s, t);
    }
  }

  lemma AddEffect(s: State, t: State, b: Bypass)
    requires t.p == s.p.(bypass := Some(b))
    requires t.w == s.w.(added := s.w.added + multiset{b}, overwritten := s.w.overwritten + One(s.p.bypass),
                         routes := s.w.routes[b.dest := b])
    ensures Effect(s, t, false, Some(b))
  {
    hide One;
  }

  lemma StepEffect(s: State, step: Step)
    requires Enabled(s, step)
    ensures Effect(s, Next(s, step), TearsDown(s, step), if step.AddBypass? then Some(RouteOf(s, step)) else None)
  {
    hide Effect, DeliverNext, ConnectNext, StopNext, Reset;
    StopEffect(s);
    match step
    case Deliver(i, valid, wakeOk, keepalive) => DeliverEffect(s, i, valid, wakeOk, keepalive);
    case NewSecrets(code) => SameEffect(s, SecretsNext(s, code));
    case PeerQuit => SameEffect(s, s.(phase := Quit));
    case TimerStops => SameEffect(s, TimerStopNext(s));
    case Connect(_) =>
    case Disconnect =>
    case Terminate =>
    case Finalize =>
    case _ => WorkerEffect(s, step);
  }

  lemma SameEffect(s: State, t: State)
    requires t.p.bypass == s.p.bypass && t.w.deleted == s.w.deleted && t.w.overwritten == s.w.overwritten
    requires t.w.added == s.w.added && t.w.routes == s.w.routes
    ensures Effect(s, t, false, None)
  {
  }

  /**
    A recorded route is deleted by a teardown, with the tuple it was added with, and by
    nothing else; no other step but a second add touches the record. In particular it stays
    when the interface cannot be configured and when the worker finds itself cancelled.
   */
  lemma RecordLasts(s: State, step: Step)
    requires Enabled(s, step)
    ensures var t := Next(s, step);
            if TearsDown(s, step) then t.p.bypass == None && t.w.deleted == s.w.deleted + One(s.p.bypass)
            else if step.AddBypass? then t.p.bypass == Some(RouteOf(s, step)) && t.w.deleted == s.w.deleted
            else t.p.bypass == s.p.bypass && t.w.deleted == s.w.deleted
  {
    hide Next, TearsDown;
    StepEffect(s, step);
  }

  lemma OverwriteStep(s: State, step: Step)
    requires Enabled(s, step)
    ensures Next(s, step).w.overwritten
            == if step.AddBypass? then s.w.overwritten + One(s.p.bypass) else s.w.overwritten
  {
    hide Next, TearsDown;
    StepEffect(s, step);
  }

  lemma AddedStep(s: State, step: Step)
    requires Enabled(s, step)
    ensures Next(s, step).w.added == if step.AddBypass? then s.w.added + multiset{RouteOf(s, step)} else s.w.added
  {
    hide Next, TearsDown;
    StepEffect(s, step);
  }

  lemma RoutesStep(s: State, step: Step)
    requires Enabled(s, step)
    ensures Next(s, step).w.routes
            == if TearsDown(s, step) then Unrouted(s.w.routes, s.p.bypass)
               else if step.AddBypass? then s.w.routes[RouteOf(s, step).dest := RouteOf(s, step)]
               else s.w.routes
  {
    hide Next, TearsDown;
    StepEffect(s, step);
  }

  // ---- the ledger ----

  predicate Balanced(s: State)
  {
    s.w.added == s.w.deleted + s.w.overwritten + One(s.p.bypass)
  }

  lemma StepBalances(s: State, step: Step)
    requires Balanced(s) && Enabled(s, step)
    ensures Balanced(Next(s, step))
  {
    hide Next;
    RecordLasts(s, step);
    OverwriteStep(s, step);
    AddedStep(s, step);
    var d, o, r := s.w.deleted, s.w.overwritten, One(s.p.bypass);
    if TearsDown(s, step) {
      Reorder(d, o, r);
    } else if step.AddBypass? {
      Reassociate(d, o, r, multiset{RouteOf(s, step)});
    }
  }

  lemma Reorder(d: multiset<Bypass>, o: multiset<Bypass>, r: multiset<Bypass>)
    ensures d + o + r == (d + r) + o + multiset{}
  {
  }

  lemma Reassociate(d: multiset<Bypass>, o: multiset<Bypass>, r: multiset<Bypass>, b: multiset<Bypass>)
    ensures d + o + r + b == d + (o + r) + b
  {
  }

  /** Added is deleted, plus recorded over, plus the one route still recorded. */
  lemma {:induction false} RunsBalance(run: seq<Step>)
    requires After(run).Some?
    ensures Balanced(After(run).value)
    decreases |run|
  {
    hide Balanced, Enabled, Next;
    if run == [] {
      InitBalanced();
    } else {
      RunsBalance(run[..|run| - 1]);
      StepBalances(After(run[..|run| - 1]).value, run[|run| - 1]);
    }
  }

  lemma InitBalanced()
    ensures Balanced(Init())
  {
  }

  // ---- from an add to the next teardown ----

  /** No step of `more`, taken after `run`, tears down or adds. */
  predicate LeavesRecord(run: seq<Step>, more: seq<Step>)
  {
    forall k :: 0 <= k < |more| ==>
      After(run + more[..k]).Some? && Enabled(After(run + more[..k]).value, more[k])
      && !more[k].AddBypass? && !TearsDown(After(run + more[..k]).value, more[k])
  }

  /** From the add to the next teardown the record stands, and that teardown deletes it once. */
  lemma {:induction false} DeletedAtNextTeardown(run: seq<Step>, b: Bypass, more: seq<Step>, down: Step)
    requires After(run).Some? && After(run).value.p.bypass == Some(b)
    requires LeavesRecord(run, more) && After(run + more).Some?
    requires Enabled(After(run + more).value, down) && TearsDown(After(run + more).value, down)
    ensures var s, t := After(run + more).value, Next(After(run + more).value, down);
            && s.p.bypass == Some(b) && s.w.deleted == After(run).value.w.deleted
            && t.p.bypass == None && t.w.deleted == After(run).value.w.deleted + multiset{b}
  {
    hide After, Enabled, Next, TearsDown;
    RecordStands(run, b, more, |more|);
    assert more[..|more|] == more;
    RecordLasts(After(run + more).value, down);
  }

  lemma {:induction false} RecordStands(run: seq<Step>, b: Bypass, more: seq<Step>, k: nat)
    requires After(run).Some? && After(run).value.p.bypass == Some(b) && LeavesRecord(run, more) && k <= |more|
    ensures After(run + more[..k]).Some?
    ensures After(run + more[..k]).value.p.bypass == Some(b)
    ensures After(run + more[..k]).value.w.deleted == After(run).value.w.deleted
  {
    hide After, Enabled, Next, TearsDown;
    if k == 0 {
      assert run + more[..0] == run;
    } else {
      RecordStands(run, b, more, k - 1);
      var before := run + more[..k - 1];
      AfterStep(before, more[k - 1]);
      assert run + more[..k] == before + [more[k - 1]];
      RecordLasts(After(before).value, more[k - 1]);
    }
  }
}
