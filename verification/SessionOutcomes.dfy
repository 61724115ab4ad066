/**
  What each callback brings about, said of whole runs and of events: when a tunnel is started,
  when a challenge is awaited, and when a configuration is handed on and forwarding starts.
 */
module SessionOutcomes {
  import opened Wrappers
  import opened Ipv4Text
  import opened Session
  import opened Conservation
  import opened AuthSafety

  /** The invariants that hold of every run. */
  ghost predicate Reached(s: State) { Inv(s) && Follows(s) }

  lemma RunsReach(run: seq<Step>)
    requires After(run).Some?
    ensures Reached(After(run).value)
  {
    hide After, Inv, Follows;
    RunsKeepInv(run);
    RunsFollow(run);
  }

  lemma StepReaches(s: State, step: Step)
    requires Reached(s) && Enabled(s, step)
    ensures Reached(Next(s, step))
  {
    hide Inv, Follows, Enabled, Next;
    StepKeepsInv(s, step);
    StepFollows(s, step);
  }

  // ---- the callback of a login or a challenge ----

  /** What has been discovered once a reply is in: what it brings, or what was there already. */
  function FoundWith(c: seq<Event>, r: AuthReply): Option<Gateway>
  {
    if c == [] then r.info else Discovered(c)
  }

  /** What a reply brings about, told by events, tasks and what is awaited. */
  predicate ReplySeen(s: State, r: AuthReply, t: State)
  {
    && s.phase == t.phase == Attempt && Current(s.w.history).Some? && |s.tasks| <= |t.tasks|
    && t.tasks[..|s.tasks|] == s.tasks
    && var g := FoundWith(Current(s.w.history).value, r);
       && g.Some? && t.p.gatewayIp == g.value.ip && t.p.bypass == s.p.bypass
       && if r.status == Some("done") && r.authenticated && r.key.Some? then
            && t.w.history == s.w.history + [Replied(r), TunnelStarted(g.value.port % 0x1_0000, r.key.value)]
            && |t.tasks| == |s.tasks| + 1 && Live(t, |s.tasks|) && !t.p.awaitingChallenge
            && t.tasks[|s.tasks|].stage == Connecting(g.value.port % 0x1_0000, r.key.value)
          else
            && t.w.history == s.w.history + [Replied(r)] && t.tasks == s.tasks && !Busy(t)
            && (t.p.awaitingChallenge <==> r.status == Some("continue"))
            && (r.status == Some("continue") ==> t.p.sessionId == r.sessionId)
  }

  /** What the attempt has found when its history goes on. */
  lemma FoundLater(h: seq<Event>, r: AuthReply)
    requires Current(h).Some?
    ensures var c := Current(h + [Replied(r)]); c.Some? && Discovered(c.value) == FoundWith(Current(h).value, r)
  {
    hide Current;
    CurrentAppend(h, Replied(r));
  }

  /** A live reply starts the tunnel, asks for a challenge, or starts nothing. */
  lemma ReplyOutcome(s: State, i: nat, r: AuthReply, valid: bool, wakeOk: bool, keepalive: nat)
    requires Reached(s) && s.phase != Quit && Live(s, i) && s.tasks[i].stage == AuthReturned(Some(r))
    ensures Enabled(s, Deliver(i, valid, wakeOk, keepalive))
    ensures ReplySeen(SetStage(s, i, Delivered), r, Next(s, Deliver(i, valid, wakeOk, keepalive)))
  {
    hide Inv, Follows, Current, StageFits, AuthNext, Busy, ReplySeen;
    LiveMeansAttempt(s, i);
    LiveFollows(s, i);
    LastDelivered(s, i);
    TokenIsGood(s);
    AuthNextSeen(SetStage(s, i, Delivered), r);
  }

  lemma TokenIsGood(s: State)
    requires Inv(s) && s.p.cancellable.Some?
    ensures s.p.cancellable.value !in s.w.cancelled
  {
  }

  lemma AuthNextSeen(s: State, r: AuthReply)
    requires s.phase == Attempt && !Busy(s) && !s.p.awaitingChallenge && Current(s.w.history).Some?
    requires s.p.cancellable.Some? && s.p.cancellable.value !in s.w.cancelled
    requires StageFits(s.p, Current(s.w.history).value, AuthReturned(Some(r)))
    ensures ReplySeen(s, r, AuthNext(s, r))
  {
    hide Current, Busy;
    var t := AuthNext(s, r);
    if !(r.status == Some("done") && r.authenticated && r.key.Some?) {
      SameTasks(s, t);
    }
  }

  /**
    When the callback of a live login or challenge runs: the tunnel is started if and only if
    the reply says "done", authenticated, and brings a key, with that key and the port of the
    attempt's discovery, after any number of challenges; a challenge is awaited, with the
    session id of the reply, if and only if it says "continue"; else nothing is started.
   */
  lemma DeliveredReply(run: seq<Step>, i: nat, r: AuthReply, valid: bool, wakeOk: bool, keepalive: nat)
    requires After(run).Some? && After(run).value.phase != Quit && Live(After(run).value, i)
    requires After(run).value.tasks[i].stage == AuthReturned(Some(r))
    ensures var s, later := After(run).value, After(run + [Deliver(i, valid, wakeOk, keepalive)]);
            && later.Some? && Current(s.w.history).Some? && Current(later.value.w.history).Some?
            && var t, c, g := later.value, Current(s.w.history).value, Discovered(Current(later.value.w.history).value);
               && g.Some? && g == (if c == [] then r.info else Discovered(c)) && t.p.gatewayIp == g.value.ip
               && if r.status == Some("done") && r.authenticated && r.key.Some? then
                    && t.w.history == s.w.history + [Replied(r), TunnelStarted(g.value.port % 0x1_0000, r.key.value)]
                    && |t.tasks| == |s.tasks| + 1 && Live(t, |s.tasks|) && !t.p.awaitingChallenge
                    && t.tasks[|s.tasks|].stage == Connecting(g.value.port % 0x1_0000, r.key.value)
                  else
                    && t.w.history == s.w.history + [Replied(r)] && |t.tasks| == |s.tasks|
                    && (forall j :: 0 <= j < |t.tasks| ==> !Live(t, j))
                    && (t.p.awaitingChallenge <==> r.status == Some("continue"))
                    && (r.status == Some("continue") ==> t.p.sessionId == r.sessionId)
  {
    hide After, Inv, Follows, Current, Busy, Enabled, Next, Discovered;
    var s, step := After(run).value, Deliver(i, valid, wakeOk, keepalive);
    RunsReach(run);
    ReplyOutcome(s, i, r, valid, wakeOk, keepalive);
    AfterStep(run, step);
    RunsReach(run + [step]);
    var h, t := s.w.history, Next(s, step);
    FoundLater(h, r);
    CurrentAppend(h, Replied(r));
    if r.status == Some("done") && r.authenticated && r.key.Some? {
      var e := TunnelStarted(t.tasks[|s.tasks|].stage.port, r.key.value);
      assert t.w.history == (h + [Replied(r)]) + [e];
      CurrentAppend(h + [Replied(r)], e);
      FirstStays(Current(h + [Replied(r)]).value, e);
    } else {
      NoneLive(t);
    }
  }

  lemma FirstStays(c: seq<Event>, e: Event)
    requires c != []
    ensures Discovered(c + [e]) == Discovered(c)
  {
  }

  lemma NoneLive(s: State)
    requires Inv(s) && !Busy(s)
    ensures forall j :: 0 <= j < |s.tasks| ==> !Live(s, j)
  {
  }

  // ---- the callback of a tunnel ----

  /** What the delivery of a published tunnel brings about. */
  predicate TunnelSeen(s: State, valid: bool, wakeOk: bool, keepalive: nat, t: State)
  {
    && t.tasks == s.tasks && t.phase == s.phase && Current(s.w.history).Some?
    && var g := Discovered(Current(s.w.history).value);
       && g.Some?
       && if valid && g.value.ip.Some? && Pton(g.value.ip.value).Some? then
            && Forwarding(t.p) && t.w.history == s.w.history + [ConfigSet(g.value.ip.value)]
            && t.p.tunnel == s.p.tunnel && t.p.tunFd == s.p.tunFd && t.p.tunName == s.p.tunName
            && (t.p.wakeFd.Some? <==> wakeOk) && (t.p.timer.Some? <==> keepalive > 0) && t.p.bypass == s.p.bypass
          else
            Bare(t.p) && t.w.history == s.w.history && t.p.bypass == None
  }

  lemma TunnelOutcome(s: State, i: nat, valid: bool, wakeOk: bool, keepalive: nat)
    requires Reached(s) && s.phase != Quit && Live(s, i) && s.tasks[i].stage == TunnelReturned(true)
    ensures Enabled(s, Deliver(i, valid, wakeOk, keepalive))
    ensures var t := Next(s, Deliver(i, valid, wakeOk, keepalive));
            TunnelSeen(SetStage(s, i, Delivered), valid, wakeOk, keepalive, t)
  {
    hide Inv, Follows, Current, FinishNext, TunnelSeen;
    LiveMeansAttempt(s, i);
    LiveFollows(s, i);
    FinishSeen(SetStage(s, i, Delivered), valid, wakeOk, keepalive);
  }

  lemma FinishSeen(s: State, valid: bool, wakeOk: bool, keepalive: nat)
    requires Published(s.p) && NotForwarding(s.p) && Current(s.w.history).Some?
    requires StageFits(s.p, Current(s.w.history).value, TunnelReturned(true))
    ensures TunnelSeen(s, valid, wakeOk, keepalive, FinishNext(s, valid, wakeOk, keepalive))
  {
    hide Current, Pton, FieldsHold, One, Unrouted;
  }

  /**
    When the callback of a live published tunnel runs: if its attempt's gateway address can be
    read and the settings are valid, exactly one configuration with that address is handed on
    and both threads run, with the wake descriptor if there is one and the timer if there is an
    interval; otherwise everything is torn down and nothing is handed on.
   */
  lemma DeliveredTunnel(run: seq<Step>, i: nat, valid: bool, wakeOk: bool, keepalive: nat)
    requires After(run).Some? && After(run).value.phase != Quit && Live(After(run).value, i)
    requires After(run).value.tasks[i].stage == TunnelReturned(true)
    ensures var s, later := After(run).value, After(run + [Deliver(i, valid, wakeOk, keepalive)]);
            && later.Some? && Current(s.w.history).Some?
            && var t, g := later.value, Discovered(Current(s.w.history).value);
               && g.Some? && t.tasks == s.tasks[i := s.tasks[i].(stage := Delivered)]
               && if valid && g.value.ip.Some? && Pton(g.value.ip.value).Some? then
                    && t.w.history == s.w.history + [ConfigSet(g.value.ip.value)]
                    && t.p.tunnel == s.p.tunnel && t.p.tunnel.Some? && t.p.tunFd == s.p.tunFd && t.p.tunFd.Some?
                    && t.p.tunName == s.p.tunName && t.p.uplink.Some? && t.p.downlink.Some?
                    && (t.p.wakeFd.Some? <==> wakeOk) && (t.p.timer.Some? <==> keepalive > 0)
                    && t.p.bypass == s.p.bypass
                  else
                    && t.w.history == s.w.history && t.p.tunnel == t.p.tunFd == t.p.wakeFd == None
                    && t.p.uplink == t.p.downlink == t.p.timer == None && t.p.bypass == None
  {
    hide After, Inv, Follows, Current, Enabled, Next, Pton, Discovered;
    var s, step := After(run).value, Deliver(i, valid, wakeOk, keepalive);
    RunsReach(run);
    TunnelOutcome(s, i, valid, wakeOk, keepalive);
    AfterStep(run, step);
  }

  // ---- results that come to nothing ----

  /** A cancelled result, a failed login and a failed tunnel leave no trace but their task. */
  lemma NothingDelivered(run: seq<Step>, i: nat, valid: bool, wakeOk: bool, keepalive: nat)
    requires After(run).Some? && Enabled(After(run).value, Deliver(i, valid, wakeOk, keepalive))
    requires var s := After(run).value;
             Cancelled(s, s.tasks[i]) || s.tasks[i].stage == AuthReturned(None)
             || s.tasks[i].stage == TunnelReturned(false)
    ensures var s := After(run).value;
            After(run + [Deliver(i, valid, wakeOk, keepalive)])
            == Some(s.(tasks := s.tasks[i := s.tasks[i].(stage := Delivered)]))
  {
    hide After;
    AfterStep(run, Deliver(i, valid, wakeOk, keepalive));
  }

  // ---- Connect and secrets ----

  /**
    A Connect forgets everything about the attempt before, leaves no task of it live, and
    starts one login if there is a configuration.
   */
  lemma Connects(run: seq<Step>, configOk: bool)
    requires After(run).Some? && After(run).value.phase != Quit
    ensures var s, later := After(run).value, After(run + [Connect(configOk)]);
            && later.Some?
            && var t := later.value;
               && t.phase == Attempt && t.w.history == s.w.history + [Connected]
               && t.p == InitFields().(cancellable := Some(s.w.nextToken))
               && (forall j :: 0 <= j < |s.tasks| ==> !Live(t, j) && t.tasks[j] == s.tasks[j])
               && if configOk then
                    |t.tasks| == |s.tasks| + 1 && Live(t, |s.tasks|) && t.tasks[|s.tasks|].stage.LoggingIn?
                  else t.tasks == s.tasks
  {
    hide After, Inv, Follows, Enabled, Next;
    var s := After(run).value;
    RunsReach(run);
    CanConnect(s, configOk);
    AfterStep(run, Connect(configOk));
    RunsReach(run + [Connect(configOk)]);
    ConnectForgets(s, configOk);
    OldAreCancelled(s, Next(s, Connect(configOk)));
  }

  lemma CanConnect(s: State, configOk: bool)
    requires s.phase != Quit
    ensures Enabled(s, Connect(configOk))
  {
  }

  lemma ConnectForgets(s: State, configOk: bool)
    requires Enabled(s, Connect(configOk))
    ensures var t := Next(s, Connect(configOk));
            && t.phase == Attempt && t.w.history == s.w.history + [Connected]
            && t.p == InitFields().(cancellable := Some(s.w.nextToken))
            && t.tasks == s.tasks + (if configOk then [Task(t.p.cancellable, LoggingIn)] else [])
            && t.w.cancelled == s.w.cancelled + if s.p.cancellable.Some? then {s.p.cancellable.value} else {}
  {
    hide FieldsHold, One, Unrouted;
  }

  lemma OldAreCancelled(s: State, t: State)
    requires Inv(s) && Inv(t) && t.p.cancellable == Some(s.w.nextToken) && s.tasks <= t.tasks
    requires t.w.cancelled == s.w.cancelled + if s.p.cancellable.Some? then {s.p.cancellable.value} else {}
    ensures forall j :: 0 <= j < |s.tasks| ==> !Live(t, j) && t.tasks[j] == s.tasks[j]
    ensures |t.tasks| == |s.tasks| + 1 && t.tasks[|s.tasks|] == Task(t.p.cancellable, LoggingIn) ==> Live(t, |s.tasks|)
  {
    forall j | 0 <= j < |s.tasks| ensures !Live(t, j) {
      if Live(t, j) {
        assert Live(s, j);
      }
    }
  }

  /**
    During an attempt a code starts a challenge if and only if one is awaited and the code is
    not empty; it carries the session id of the reply that asked for it.
   */
  lemma SecretsSent(run: seq<Step>, code: string)
    requires After(run).Some? && After(run).value.phase == Attempt
    ensures var s, later := After(run).value, After(run + [NewSecrets(code)]);
            && later.Some?
            && var t := later.value;
               if s.p.awaitingChallenge && code != "" then
                 && var c := Current(s.w.history);
                    && c.Some? && c.value != [] && c.value[|c.value| - 1].Replied?
                    && var sid := c.value[|c.value| - 1].reply.sessionId;
                       && t.w.history == s.w.history + [ChallengeSent(sid)]
                       && |t.tasks| == |s.tasks| + 1 && Live(t, |s.tasks|)
                       && t.tasks[|s.tasks|].stage == Challenging(sid) && !t.p.awaitingChallenge
               else t == s
  {
    hide After, Inv, Follows, Enabled, Next, Current;
    var s := After(run).value;
    RunsReach(run);
    SecretsOutcome(s, code);
    AfterStep(run, NewSecrets(code));
  }

  lemma SecretsOutcome(s: State, code: string)
    requires Inv(s) && Follows(s) && s.phase == Attempt
    ensures Enabled(s, NewSecrets(code))
    ensures var t := Next(s, NewSecrets(code));
            if s.p.awaitingChallenge && code != "" then
              && Current(s.w.history).Some? && AwaitFits(s.p, Current(s.w.history).value)
              && t.w.history == s.w.history + [ChallengeSent(s.p.sessionId)]
              && |t.tasks| == |s.tasks| + 1 && Live(t, |s.tasks|)
              && t.tasks[|s.tasks|].stage == Challenging(s.p.sessionId) && !t.p.awaitingChallenge
            else t == s
  {
    hide Current, Safe;
  }
}
