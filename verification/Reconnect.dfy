/**
  A whole attempt, from any state in which the main loop runs: login, any number of challenges,
  tunnel, device, bypass route and configuration, up to forwarding.
 */
module Reconnect {
  import opened Wrappers
  import opened Bits
  import opened Ipv4Text
  import opened Session
  import opened Conservation
  import opened AuthSafety
  import opened SessionOutcomes

  // ---- several steps at once ----

  /** Where steps lead from a state, if each of them can be taken. */
  function Take(s: State, steps: seq<Step>): Option<State>
    decreases |steps|
  {
    if steps == [] then Some(s)
    else if Enabled(s, steps[0]) then Take(Next(s, steps[0]), steps[1..])
    else None
  }

  lemma {:induction false} TakeAfter(run: seq<Step>, steps: seq<Step>)
    requires After(run).Some?
    ensures After(run + steps) == Take(After(run).value, steps)
    decreases |steps|
  {
    hide Enabled, Next;
    if steps == [] {
      assert run + steps == run;
    } else if Enabled(After(run).value, steps[0]) {
      AfterStep(run, steps[0]);
      TakeAfter(run + [steps[0]], steps[1..]);
      assert run + [steps[0]] + steps[1..] == run + steps;
    } else {
      Stuck(run, steps, |steps|);
    }
  }

  lemma {:induction false} Stuck(run: seq<Step>, steps: seq<Step>, n: nat)
    requires After(run).Some? && 0 < n <= |steps| && !Enabled(After(run).value, steps[0])
    ensures After(run + steps[..n]).None?
    ensures n == |steps| ==> After(run + steps).None?
  {
    hide Enabled, Next;
    var all := run + steps[..n];
    assert n == |steps| ==> all == run + steps;
    if n == 1 {
      assert all[..|all| - 1] == run && all[|all| - 1] == steps[0];
    } else {
      Stuck(run, steps, n - 1);
      assert all[..|all| - 1] == run + steps[..n - 1];
    }
  }

  lemma {:induction false} TakeBoth(s: State, a: seq<Step>, b: seq<Step>)
    requires Take(s, a).Some?
    ensures Take(s, a + b) == Take(Take(s, a).value, b)
    decreases |a|
  {
    hide Enabled, Next;
    if a == [] {
      assert a + b == b;
    } else {
      assert (a + b)[0] == a[0] && (a + b)[1..] == a[1..] + b;
      TakeBoth(Next(s, a[0]), a[1..], b);
    }
  }

  lemma TakeOne(s: State, step: Step)
    requires Enabled(s, step)
    ensures Take(s, [step]) == Some(Next(s, step))
  {
    hide Enabled, Next;
    assert [step][1..] == [];
  }

  lemma TakeTwo(s: State, a: Step, b: Step)
    requires Enabled(s, a) && Enabled(Next(s, a), b)
    ensures Take(s, [a, b]) == Some(Next(Next(s, a), b))
  {
    hide Enabled, Next;
    assert [a, b][1..] == [b];
    TakeOne(Next(s, a), b);
  }

  lemma TakeThree(s: State, a: Step, b: Step, c: Step)
    requires Enabled(s, a) && Enabled(Next(s, a), b) && Enabled(Next(Next(s, a), b), c)
    ensures Take(s, [a, b, c]) == Some(Next(Next(Next(s, a), b), c))
  {
    hide Enabled, Next;
    assert [a, b, c][1..] == [b, c];
    TakeTwo(Next(s, a), b, c);
  }

  // ---- the script ----

  /** A challenge: the code that is sent, and what the gateway answers. */
  datatype Round = Round(code: string, reply: AuthReply)

  /** The steps of the challenges, when the first of them is task `i`. */
  function Rounds(i: nat, rounds: seq<Round>): seq<Step>
    decreases |rounds|
  {
    if rounds == [] then []
    else
      [NewSecrets(rounds[0].code), AuthReturn(i, Some(rounds[0].reply)), Deliver(i, true, true, 0)]
      + Rounds(i + 1, rounds[1..])
  }

  /** What the observer sees of them, when the first answers a challenge with this session id. */
  function RoundEvents(sid: Option<string>, rounds: seq<Round>): seq<Event>
    decreases |rounds|
  {
    if rounds == [] then []
    else [ChallengeSent(sid), Replied(rounds[0].reply)] + RoundEvents(rounds[0].reply.sessionId, rounds[1..])
  }

  predicate Asks(r: AuthReply) { r.status == Some("continue") }

  predicate Accepts(r: AuthReply) { r.status == Some("done") && r.authenticated && r.key.Some? }

  /** Every reply but the last asks for another code, and the last accepts; codes are not empty. */
  predicate Succeeds(first: AuthReply, rounds: seq<Round>)
    decreases |rounds|
  {
    if rounds == [] then Accepts(first)
    else Asks(first) && rounds[0].code != "" && rounds[0].reply.info == None && Succeeds(rounds[0].reply, rounds[1..])
  }

  function LastReply(first: AuthReply, rounds: seq<Round>): AuthReply
    decreases |rounds|
  {
    if rounds == [] then first else LastReply(rounds[0].reply, rounds[1..])
  }

  /** A bypass route, if the configuration wants one: its interface and next hop. */
  datatype Hop = Hop(ifname: string, via: word)

  /** The steps of the worker that opens the tunnel. */
  function WorkerSteps(i: nat, name: string, bypass: Option<Hop>): seq<Step>
  {
    [Open(i, true), Create(i, true, name)]
    + (if bypass.Some? then [ReadGateway(i), AddBypass(i, bypass.value.ifname, bypass.value.via)] else [])
    + [Configure(i, true), Publish(i)]
  }

  // ---- how far the attempt is ----

  /** The newest task is live and has not been delivered. */
  predicate Out(s: State, i: nat) { s.phase == Attempt && |s.tasks| == i + 1 && Live(s, i) }

  /** The attempt has found a gateway. */
  predicate Has(s: State, g: Gateway)
  {
    var c := Current(s.w.history);
    c.Some? && c.value != [] && Discovered(c.value) == Some(g) && s.p.gatewayIp == g.ip
  }

  ghost predicate Awaiting(s: State, n: nat, sid: Option<string>, g: Gateway)
  {
    && Reached(s) && Has(s, g) && s.phase == Attempt && |s.tasks| == n && s.p.awaitingChallenge
    && s.p.sessionId == sid && s.p.bypass == None
  }

  ghost predicate Dialling(s: State, i: nat, key: string, g: Gateway)
  {
    Reached(s) && Has(s, g) && Out(s, i) && s.tasks[i].stage == Connecting(g.port % 0x1_0000, key) && s.p.bypass == None
  }

  lemma HasLater(s: State, t: State, g: Gateway, e: Event)
    requires Has(s, g) && t.p.gatewayIp == s.p.gatewayIp && t.w.history == s.w.history + [e]
    requires !e.Connected? && !e.Disconnected?
    ensures Has(t, g)
  {
    hide Current;
    CurrentAppend(s.w.history, e);
  }

  // ---- login ----

  lemma ConnectOut(s: State)
    requires Reached(s) && s.phase != Quit
    ensures Enabled(s, Connect(true))
    ensures var t := Next(s, Connect(true));
            && Reached(t) && Out(t, |s.tasks|) && t.tasks[|s.tasks|].stage == LoggingIn && t.p.bypass == None
            && t.w.history == s.w.history + [Connected] && Current(t.w.history) == Some([])
  {
    hide Inv, Follows, Reset, Current;
    StepReaches(s, Connect(true));
    AfterReset(s);
    ResetHistory(s);
    CurrentAppend(s.w.history, Connected);
    NewTaskIsLive(Next(s, Connect(true)));
  }

  lemma AfterReset(s: State)
    ensures Reset(s).p.bypass == None && Reset(s).tasks == s.tasks
  {
  }

  lemma NewTaskIsLive(s: State)
    requires Inv(s) && s.phase == Attempt && s.tasks != [] && s.tasks[|s.tasks| - 1].token == s.p.cancellable
    requires !s.tasks[|s.tasks| - 1].stage.Delivered?
    ensures Live(s, |s.tasks| - 1)
  {
  }

  /** A reply comes back to a login or a challenge that is out. */
  lemma ReplyComes(s: State, i: nat, r: AuthReply)
    requires Reached(s) && Out(s, i)
    requires (s.tasks[i].stage.LoggingIn? && r.info.Some?) || (s.tasks[i].stage.Challenging? && r.info.None?)
    ensures Enabled(s, AuthReturn(i, Some(r)))
    ensures var t := Next(s, AuthReturn(i, Some(r)));
            && Reached(t) && Out(t, i) && t.tasks[i].stage == AuthReturned(Some(r)) && t.p == s.p && t.w == s.w
  {
    hide Inv, Follows;
    StepReaches(s, AuthReturn(i, Some(r)));
  }

  /** The first reply is delivered. */
  lemma FirstDelivered(s: State, i: nat, r: AuthReply)
    requires Reached(s) && Out(s, i) && s.tasks[i].stage == AuthReturned(Some(r)) && s.p.bypass == None
    requires Current(s.w.history) == Some([]) && r.info.Some?
    ensures Enabled(s, Deliver(i, true, true, 0))
    ensures var t := Next(s, Deliver(i, true, true, 0));
            if Accepts(r) then
              && Dialling(t, i + 1, r.key.value, r.info.value)
              && t.w.history == s.w.history + [Replied(r), TunnelStarted(r.info.value.port % 0x1_0000, r.key.value)]
            else
              Asks(r) ==> Awaiting(t, i + 1, r.sessionId, r.info.value) && t.w.history == s.w.history + [Replied(r)]
  {
    hide Inv, Follows, Current, Discovered, Enabled, Next;
    ReplyOutcome(s, i, r, true, true, 0);
    StepReaches(s, Deliver(i, true, true, 0));
    FoundLater(s.w.history, r);
    HasReplied(s.w.history, r, Next(s, Deliver(i, true, true, 0)));
  }

  /** A later reply is delivered; what was found is kept. */
  lemma LaterDelivered(s: State, i: nat, r: AuthReply, g: Gateway)
    requires Reached(s) && Out(s, i) && s.tasks[i].stage == AuthReturned(Some(r)) && s.p.bypass == None && Has(s, g)
    ensures Enabled(s, Deliver(i, true, true, 0))
    ensures var t := Next(s, Deliver(i, true, true, 0));
            if Accepts(r) then
              && Dialling(t, i + 1, r.key.value, g)
              && t.w.history == s.w.history + [Replied(r), TunnelStarted(g.port % 0x1_0000, r.key.value)]
            else
              Asks(r) ==> Awaiting(t, i + 1, r.sessionId, g) && t.w.history == s.w.history + [Replied(r)]
  {
    hide Inv, Follows, Current, Discovered, Enabled, Next;
    ReplyOutcome(s, i, r, true, true, 0);
    StepReaches(s, Deliver(i, true, true, 0));
    FoundLater(s.w.history, r);
    HasReplied(s.w.history, r, Next(s, Deliver(i, true, true, 0)));
  }

  /** What is found with a reply is what the attempt has, also once the tunnel is started. */
  lemma HasReplied(h: seq<Event>, r: AuthReply, t: State)
    requires Current(h).Some? && FoundWith(Current(h).value, r).Some?
    requires t.p.gatewayIp == FoundWith(Current(h).value, r).value.ip
    requires t.w.history == h + [Replied(r)]
             || exists port: nat, key :: t.w.history == h + [Replied(r), TunnelStarted(port, key)]
    ensures Has(t, FoundWith(Current(h).value, r).value)
  {
    hide Current;
    CurrentAppend(h, Replied(r));
    if t.w.history != h + [Replied(r)] {
      var port: nat, key :| t.w.history == h + [Replied(r), TunnelStarted(port, key)];
      assert t.w.history == h + [Replied(r)] + [TunnelStarted(port, key)];
      CurrentAppend(h + [Replied(r)], TunnelStarted(port, key));
    }
  }

  // ---- challenges ----

  lemma CodeSent(s: State, i: nat, code: string, sid: Option<string>, g: Gateway)
    requires Awaiting(s, i, sid, g) && code != ""
    ensures Enabled(s, NewSecrets(code))
    ensures var t := Next(s, NewSecrets(code));
            && Reached(t) && Has(t, g) && Out(t, i) && t.tasks[i].stage == Challenging(sid) && t.p.bypass == None
            && t.w.history == s.w.history + [ChallengeSent(sid)]
  {
    hide Inv, Follows, Has;
    var t := Next(s, NewSecrets(code));
    StepReaches(s, NewSecrets(code));
    HasLater(s, t, g, ChallengeSent(sid));
    NewTaskIsLive(t);
  }

  lemma OneRound(s: State, i: nat, round: Round, sid: Option<string>, g: Gateway)
    requires Awaiting(s, i, sid, g) && round.code != "" && round.reply.info == None
    requires Accepts(round.reply) || Asks(round.reply)
    ensures var steps := [NewSecrets(round.code), AuthReturn(i, Some(round.reply)), Deliver(i, true, true, 0)];
            var later := Take(s, steps);
            && later.Some?
            && var t := later.value;
               if Accepts(round.reply) then
                 && Dialling(t, i + 1, round.reply.key.value, g)
                 && t.w.history == s.w.history + [ChallengeSent(sid), Replied(round.reply)]
                                   + [TunnelStarted(g.port % 0x1_0000, round.reply.key.value)]
               else
                 && Awaiting(t, i + 1, round.reply.sessionId, g)
                 && t.w.history == s.w.history + [ChallengeSent(sid), Replied(round.reply)]
  {
    hide Reached, Has, Enabled, Next, Dialling, Awaiting;
    var a, b, c := NewSecrets(round.code), AuthReturn(i, Some(round.reply)), Deliver(i, true, true, 0);
    CodeSent(s, i, round.code, sid, g);
    var x := Next(s, a);
    ReplyComes(x, i, round.reply);
    var y := Next(x, b);
    SameHas(x, y, g);
    LaterDelivered(y, i, round.reply, g);
    TakeThree(s, a, b, c);
  }

  lemma SameHas(s: State, t: State, g: Gateway)
    requires Has(s, g) && t.p.gatewayIp == s.p.gatewayIp && t.w.history == s.w.history
    ensures Has(t, g)
  {
  }

  lemma {:induction false} RoundsReach(s: State, i: nat, first: AuthReply, rounds: seq<Round>, g: Gateway)
    requires rounds != [] && Succeeds(first, rounds) && Awaiting(s, i, first.sessionId, g)
    ensures var later, last := Take(s, Rounds(i, rounds)), LastReply(first, rounds);
            && later.Some? && last.key.Some? && Dialling(later.value, i + |rounds|, last.key.value, g)
            && later.value.w.history
               == s.w.history + RoundEvents(first.sessionId, rounds)
                  + [TunnelStarted(g.port % 0x1_0000, last.key.value)]
    decreases |rounds|
  {
    hide Enabled, Next, Awaiting, Dialling;
    var round, more := rounds[0], rounds[1..];
    OneRound(s, i, round, first.sessionId, g);
    var steps := [NewSecrets(round.code), AuthReturn(i, Some(round.reply)), Deliver(i, true, true, 0)];
    TakeBoth(s, steps, Rounds(i + 1, more));
    var t := Take(s, steps).value;
    var seen: seq<Event> := [ChallengeSent(first.sessionId), Replied(round.reply)];
    if more == [] {
      assert RoundEvents(first.sessionId, rounds) == seen;
    } else {
      RoundsReach(t, i + 1, round.reply, more, g);
      assert s.w.history + seen + RoundEvents(round.reply.sessionId, more)
          == s.w.history + RoundEvents(first.sessionId, rounds);
    }
  }

  // ---- the tunnel ----

  lemma WorkerOut(s: State, step: Step, g: Gateway)
    requires Reached(s) && Has(s, g) && Enabled(s, step) && WorkerStep(step) && Out(s, step.i)
    requires !Next(s, step).tasks[step.i].stage.Delivered?
    ensures var t := Next(s, step);
            Reached(t) && Has(t, g) && Out(t, step.i) && t.w.history == s.w.history && t.p.gatewayIp == s.p.gatewayIp
  {
    hide Inv, Follows, Enabled, Next, Has;
    StepReaches(s, step);
    WorkerFrame(s, step);
    SameHas(s, Next(s, step), g);
  }

  lemma DeviceComes(s: State, i: nat, name: string, g: Gateway)
    requires Reached(s) && Has(s, g) && Out(s, i) && s.tasks[i].stage.Connecting?
    ensures var later := Take(s, [Open(i, true), Create(i, true, name)]);
            && later.Some?
            && var t := later.value;
               && Reached(t) && Has(t, g) && Out(t, i) && t.w.history == s.w.history && t.p.bypass == s.p.bypass
               && t.tasks[i].stage.Created? && t.tasks[i].stage.name == name
               && t.tasks[i].stage.gateway == None && !t.tasks[i].stage.bypassed
  {
    hide Reached, Has;
    var a, b := Open(i, true), Create(i, true, name);
    WorkerOut(s, a, g);
    WorkerOut(Next(s, a), b, g);
    TakeTwo(s, a, b);
  }

  lemma BypassComes(s: State, i: nat, hop: Hop, address: word, g: Gateway)
    requires Reached(s) && Has(s, g) && Out(s, i) && g.ip.Some? && Pton(g.ip.value) == Some(address)
    requires s.tasks[i].stage.Created? && s.tasks[i].stage.gateway == None && !s.tasks[i].stage.bypassed
    ensures var later := Take(s, [ReadGateway(i), AddBypass(i, hop.ifname, hop.via)]);
            && later.Some?
            && var t := later.value;
               && Reached(t) && Has(t, g) && Out(t, i) && t.w.history == s.w.history
               && t.p.bypass == Some(Bypass(hop.ifname, address, hop.via))
               && t.tasks[i].stage.Created? && t.tasks[i].stage.name == s.tasks[i].stage.name
  {
    hide Reached, Pton;
    var a, b := ReadGateway(i), AddBypass(i, hop.ifname, hop.via);
    WorkerOut(s, a, g);
    WorkerOut(Next(s, a), b, g);
    TakeTwo(s, a, b);
  }

  lemma PublishComes(s: State, i: nat, g: Gateway)
    requires Reached(s) && Has(s, g) && Out(s, i) && s.tasks[i].stage.Created?
    ensures var later := Take(s, [Configure(i, true), Publish(i)]);
            && later.Some?
            && var t := later.value;
               && Reached(t) && Has(t, g) && Out(t, i) && t.w.history == s.w.history && t.p.bypass == s.p.bypass
               && t.tasks[i].stage == TunnelReturned(true) && t.p.tunName == Some(s.tasks[i].stage.name)
  {
    hide Reached, Has, Both;
    var a, b := Configure(i, true), Publish(i);
    WorkerOut(s, a, g);
    WorkerOut(Next(s, a), b, g);
    TakeTwo(s, a, b);
  }

  lemma WorkerReach(s: State, i: nat, name: string, bypass: Option<Hop>, key: string, address: word, g: Gateway)
    requires Dialling(s, i, key, g) && g.ip.Some? && Pton(g.ip.value) == Some(address)
    ensures var later := Take(s, WorkerSteps(i, name, bypass));
            && later.Some?
            && var t := later.value;
               && Reached(t) && Has(t, g) && Out(t, i) && t.w.history == s.w.history
               && t.tasks[i].stage == TunnelReturned(true) && t.p.tunName == Some(name)
               && t.p.bypass == (if bypass.None? then None
                                 else Some(Bypass(bypass.value.ifname, address, bypass.value.via)))
  {
    hide Reached, Has, Enabled, Next, Out, Take, Pton;
    var a: seq<Step> := [Open(i, true), Create(i, true, name)];
    var c: seq<Step> := [Configure(i, true), Publish(i)];
    DeviceComes(s, i, name, g);
    var x := Take(s, a).value;
    if bypass.Some? {
      var b: seq<Step> := [ReadGateway(i), AddBypass(i, bypass.value.ifname, bypass.value.via)];
      BypassComes(x, i, bypass.value, address, g);
      TakeBoth(s, a, b);
      PublishComes(Take(x, b).value, i, g);
      TakeBoth(s, a + b, c);
    } else {
      PublishComes(x, i, g);
      TakeBoth(s, a, c);
      assert a + [] == a;
    }
  }

  // ---- the whole attempt ----

  function LoginSteps(i: nat, first: AuthReply, rounds: seq<Round>): seq<Step>
  {
    [Connect(true), AuthReturn(i, Some(first)), Deliver(i, true, true, 0)] + Rounds(i + 1, rounds)
  }

  function AttemptSteps(n: nat, first: AuthReply, rounds: seq<Round>, name: string, bypass: Option<Hop>, wakeOk: bool,
                        keepalive: nat): seq<Step>
  {
    var i := n + 1 + |rounds|;
    LoginSteps(n, first, rounds) + WorkerSteps(i, name, bypass) + [Deliver(i, true, wakeOk, keepalive)]
  }

  lemma LoginReach(s: State, first: AuthReply, rounds: seq<Round>)
    requires Reached(s) && s.phase != Quit && Succeeds(first, rounds) && first.info.Some?
    ensures var later, last := Take(s, LoginSteps(|s.tasks|, first, rounds)), LastReply(first, rounds);
            && later.Some? && last.key.Some?
            && Dialling(later.value, |s.tasks| + 1 + |rounds|, last.key.value, first.info.value)
            && later.value.w.history
               == s.w.history + [Connected, Replied(first)] + RoundEvents(first.sessionId, rounds)
                  + [TunnelStarted(first.info.value.port % 0x1_0000, last.key.value)]
  {
    hide Reached, Enabled, Next, Dialling, Awaiting, Current;
    var i, g := |s.tasks|, first.info.value;
    var a, b, c := Connect(true), AuthReturn(i, Some(first)), Deliver(i, true, true, 0);
    ConnectOut(s);
    var x := Next(s, a);
    ReplyComes(x, i, first);
    var y := Next(x, b);
    FirstDelivered(y, i, first);
    var z := Next(y, c);
    TakeThree(s, a, b, c);
    TakeBoth(s, [a, b, c], Rounds(i + 1, rounds));
    assert s.w.history + [Connected] + [Replied(first)] == s.w.history + [Connected, Replied(first)];
    if rounds != [] {
      RoundsReach(z, i + 1, first, rounds, g);
    }
  }

  /**
    Whatever has happened before, as long as the main loop runs, a Connect reaches forwarding:
    through a login, any number of challenges, and a worker that nothing hinders, with the
    key of the last reply, the gateway of the first, and the bypass route that is asked for.
   */
  lemma ReconnectReachesForwarding(run: seq<Step>, first: AuthReply, rounds: seq<Round>, key: string, name: string,
                                   bypass: Option<Hop>, address: word, wakeOk: bool, keepalive: nat)
    returns (t: State)
    requires After(run).Some? && After(run).value.phase != Quit
    requires Succeeds(first, rounds) && LastReply(first, rounds).key == Some(key)
    requires first.info.Some? && first.info.value.ip.Some? && Pton(first.info.value.ip.value) == Some(address)
    ensures var n, g := |After(run).value.tasks|, first.info.value;
            && After(run + AttemptSteps(n, first, rounds, name, bypass, wakeOk, keepalive)) == Some(t)
            && t.w.history == After(run).value.w.history + [Connected, Replied(first)]
                              + RoundEvents(first.sessionId, rounds)
                              + [TunnelStarted(g.port % 0x1_0000, key), ConfigSet(g.ip.value)]
    ensures t.p.tunnel.Some? && t.p.tunFd.Some? && t.p.uplink.Some? && t.p.downlink.Some? && t.p.tunName == Some(name)
    ensures (t.p.wakeFd.Some? <==> wakeOk) && (t.p.timer.Some? <==> keepalive > 0)
    ensures t.p.bypass == if bypass.None? then None
                          else Some(Bypass(bypass.value.ifname, address, bypass.value.via))
  {
    hide After, Reached, Enabled, Next, Dialling, Pton, LoginSteps, WorkerSteps, Take, Out, Has, RoundEvents,
      LastReply, Succeeds;
    var s, g := After(run).value, first.info.value;
    var i := |s.tasks| + 1 + |rounds|;
    var login, work, end := LoginSteps(|s.tasks|, first, rounds), WorkerSteps(i, name, bypass),
                            Deliver(i, true, wakeOk, keepalive);
    RunsReach(run);
    LoginReach(s, first, rounds);
    var x := Take(s, login).value;
    WorkerReach(x, i, name, bypass, key, address, g);
    var y := Take(x, work).value;
    TunnelDelivered(y, i, address, g, wakeOk, keepalive);
    TakeInOrder(run, login, work, end);
    SumOfEvents(s.w.history + [Connected, Replied(first)] + RoundEvents(first.sessionId, rounds),
                TunnelStarted(g.port % 0x1_0000, key), ConfigSet(g.ip.value));
    t := Next(y, end);
  }

  lemma TakeInOrder(run: seq<Step>, a: seq<Step>, b: seq<Step>, end: Step)
    requires After(run).Some? && Take(After(run).value, a).Some?
    requires Take(Take(After(run).value, a).value, b).Some?
    requires Enabled(Take(Take(After(run).value, a).value, b).value, end)
    ensures After(run + (a + b + [end])) == Some(Next(Take(Take(After(run).value, a).value, b).value, end))
  {
    hide After, Take, Enabled, Next;
    var s := After(run).value;
    TakeBoth(s, a, b);
    TakeOne(Take(s, a + b).value, end);
    TakeBoth(s, a + b, [end]);
    TakeAfter(run, a + b + [end]);
  }

  lemma SumOfEvents(h: seq<Event>, a: Event, b: Event)
    ensures h + [a] + [b] == h + [a, b]
  {
  }

  lemma TunnelDelivered(s: State, i: nat, address: word, g: Gateway, wakeOk: bool, keepalive: nat)
    requires Reached(s) && Has(s, g) && Out(s, i) && s.tasks[i].stage == TunnelReturned(true)
    requires g.ip.Some? && Pton(g.ip.value) == Some(address)
    ensures Enabled(s, Deliver(i, true, wakeOk, keepalive))
    ensures var t := Next(s, Deliver(i, true, wakeOk, keepalive));
            && t.w.history == s.w.history + [ConfigSet(g.ip.value)] && Forwarding(t.p)
            && t.p.tunName == s.p.tunName && t.p.bypass == s.p.bypass
            && (t.p.wakeFd.Some? <==> wakeOk) && (t.p.timer.Some? <==> keepalive > 0)
  {
    hide Reached, Next, Current, Pton, Forwarding, Discovered;
    TunnelOutcome(s, i, true, wakeOk, keepalive);
  }
}
