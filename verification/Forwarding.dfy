/**
  The two forwarding threads, the keepalive timer and `teardown_tunnel` of
  `nm-snx-service.c`, interleaved. A step is one blocking call, one access to a shared
  atomic, or one line of the teardown; the threads of one session are started together and
  joined before the next session.
 */
module Forwarding {
  import opened Wrappers
  import Slim

  /** A thread on its way out: `report_unexpected_thread_exit`, and how it ended. */
  datatype Exit = Checking | Claiming | Posting | Gone(posted: bool)

  datatype Up = UpAbsent | Polling | Reading | Sending | UpExit(exit: Exit)

  datatype Packet = DataPacket | KeepalivePacket | OtherPacket

  datatype Down = DownAbsent | Receiving | Handling(packet: Packet) | DownExit(exit: Exit)

  /** Where the main thread is: idle, in the middle of a tick, or behind a line of the teardown. */
  datatype Main =
    | Free
    | TickChecked | TickCounted
    | FlagSet | SocketShut | WakeWritten | DeviceClosed | DownJoined | UpJoined | FlagCleared

  const MAX_MISSES: nat := 3

  /** The two shared flags; `wins` and `posted` count claims and posted failures of a session. */
  datatype Flags = Flags(tearingDown: bool, reported: bool, wins: nat, posted: nat)

  /**
    The timer and its counter of misses. The last three count for the model: keepalives sent
    and ticks passed since the last sign of life, and stuck tunnels reported in this session.
   */
  datatype Timer = Timer(on: bool, misses: nat, sentSince: nat, quietTicks: nat, stuck: nat)

  /**
    Socket, wake descriptor and TUN device. `backlog` counts received bytes not yet decoded;
    `interrupts` bounds how often signals interrupt the poll once it has been woken.
   */
  datatype Net = Net(socketShut: bool, wakeOpen: bool, wakeWritten: bool, linkBroken: bool, deviceBroken: bool,
                     backlog: nat, interrupts: nat)

  datatype State = State(flags: Flags, timer: Timer, net: Net, main: Main, up: Up, down: Down)

  function Init(): State
  {
    State(Flags(false, false, 0, 0), Timer(false, 0, 0, 0, 0), Net(false, false, false, false, false, 0, 0),
          Free, UpAbsent, DownAbsent)
  }

  // ---- the steps of the main thread ----

  datatype MainStep =
    | Start(wakeOk: bool, keepalive: bool, interrupts: nat)
    | TickCheck | TickCount | TickSend(ok: bool)
    | SetFlag | ShutSocket | WriteWake | CloseDevice | JoinDown | JoinUp | ClearFlag | Rearm

  predicate UpReturned(up: Up) { up.UpAbsent? || (up.UpExit? && up.exit.Gone?) }

  predicate DownReturned(down: Down) { down.DownAbsent? || (down.DownExit? && down.exit.Gone?) }

  /** A join waits for the thread to have returned; without a thread there is nothing to join. */
  predicate MainEnabled(s: State, step: MainStep)
  {
    match step
    case Start(_, _, _) => s.main.Free? && s.up.UpAbsent? && s.down.DownAbsent?
    case TickCheck => s.main.Free? && s.timer.on
    case TickCount => s.main.TickChecked?
    case TickSend(_) => s.main.TickCounted?
    case SetFlag => s.main.Free?
    case ShutSocket => s.main.FlagSet?
    case WriteWake => s.main.SocketShut?
    case CloseDevice => s.main.WakeWritten?
    case JoinDown => s.main.DeviceClosed? && DownReturned(s.down)
    case JoinUp => s.main.DownJoined? && UpReturned(s.up)
    case ClearFlag => s.main.UpJoined?
    case Rearm => s.main.FlagCleared?
  }

  function MainNext(s: State, step: MainStep): State
  {
    match step
    case Start(wakeOk, keepalive, interrupts) =>
      s.(flags := s.flags.(wins := 0, posted := 0), timer := Timer(keepalive, 0, 0, 0, 0),
         net := Net(false, wakeOk, false, false, false, 0, interrupts), up := Polling, down := Receiving)
    case TickCheck =>
      if s.timer.misses >= MAX_MISSES then s.(timer := s.timer.(on := false, stuck := s.timer.stuck + 1))
      else s.(main := TickChecked, timer := s.timer.(quietTicks := s.timer.quietTicks + 1))
    case TickCount => s.(main := TickCounted, timer := s.timer.(misses := s.timer.misses + 1))
    case TickSend(ok) =>
      if ok then s.(main := Free, timer := s.timer.(sentSince := s.timer.sentSince + 1))
      else s.(main := Free, timer := s.timer.(on := false))
    case SetFlag => s.(main := FlagSet, flags := s.flags.(tearingDown := true))
    case ShutSocket => s.(main := SocketShut, timer := s.timer.(on := false), net := s.net.(socketShut := true))
    case WriteWake => s.(main := WakeWritten, net := s.net.(wakeWritten := s.net.wakeOpen))
    case CloseDevice => s.(main := DeviceClosed, net := s.net.(deviceBroken := true))
    case JoinDown => s.(main := DownJoined, down := DownAbsent)
    case JoinUp => s.(main := UpJoined, up := UpAbsent)
    case ClearFlag => s.(main := FlagCleared, flags := s.flags.(tearingDown := false))
    case Rearm => s.(main := Free, flags := s.flags.(reported := false))
  }

  // ---- the steps of the threads ----

  /** `report_unexpected_thread_exit`: check, compare-and-exchange, post. */
  datatype ExitStep = Check | Claim | Post

  predicate ExitEnabled(exit: Exit, step: ExitStep)
  {
    match step
    case Check => exit.Checking?
    case Claim => exit.Claiming?
    case Post => exit.Posting?
  }

  function ExitNext(flags: Flags, step: ExitStep): (Flags, Exit)
  {
    match step
    case Check => (flags, if flags.tearingDown then Gone(false) else Claiming)
    case Claim =>
      if flags.reported then (flags, Gone(false)) else (flags.(reported := true, wins := flags.wins + 1), Posting)
    case Post => (flags.(posted := flags.posted + 1), Gone(true))
  }

  datatype PollResult = Interrupted | Woken | Readable | PollFailed
  datatype ReadResult = Again | ReadFailed | Filled

  datatype UpStep = Poll(polled: PollResult) | Read(read: ReadResult) | Send(sent: bool) | UpLeave(leave: ExitStep)

  /** A poll reports the wake descriptor first, and blocks while nothing is ready. */
  predicate UpEnabled(s: State, step: UpStep)
  {
    match step
    case Poll(Interrupted) => s.up.Polling? && (!s.net.wakeWritten || s.net.interrupts > 0)
    case Poll(Woken) => s.up.Polling? && s.net.wakeWritten
    case Poll(Readable) => s.up.Polling? && !s.net.wakeWritten
    case Poll(PollFailed) => s.up.Polling? && s.net.deviceBroken
    case Read(r) => s.up.Reading? && (r.ReadFailed? ==> s.net.deviceBroken)
    case Send(_) => s.up.Sending?
    case UpLeave(e) => s.up.UpExit? && ExitEnabled(s.up.exit, e)
  }

  function UpNext(s: State, step: UpStep): State
    requires UpEnabled(s, step)
  {
    match step
    case Poll(Interrupted) => if s.net.wakeWritten then s.(net := s.net.(interrupts := s.net.interrupts - 1)) else s
    case Poll(Readable) => s.(up := Reading)
    case Poll(_) => s.(up := UpExit(Checking))
    case Read(Again) => s.(up := Polling)
    case Read(ReadFailed) => s.(up := UpExit(Checking))
    case Read(Filled) => s.(up := Sending)
    case Send(ok) => s.(up := if ok then Polling else UpExit(Checking))
    case UpLeave(e) => var (flags, exit) := ExitNext(s.flags, e); s.(flags := flags, up := UpExit(exit))
  }

  datatype DownStep = Decode(size: nat, packet: Packet) | ReceiveFails
    | Handle(fatal: bool) | DownLeave(leave: ExitStep)

  /** A read blocks until a frame is complete, the link fails or the socket is shut down. */
  predicate DownEnabled(s: State, step: DownStep)
  {
    match step
    case Decode(size, _) => s.down.Receiving? && Slim.HEADER <= size <= s.net.backlog
    case ReceiveFails => s.down.Receiving? && (s.net.socketShut || s.net.linkBroken)
    case Handle(fatal) => s.down.Handling? && (fatal ==> s.down.packet.DataPacket?)
    case DownLeave(e) => s.down.DownExit? && ExitEnabled(s.down.exit, e)
  }

  /** A data packet that was handed on and a keepalive are signs of life. */
  predicate Resets(s: State, step: DownStep)
  {
    step.Handle? && !step.fatal && s.down.Handling? && !s.down.packet.OtherPacket?
  }

  function DownNext(s: State, step: DownStep): State
    requires DownEnabled(s, step)
  {
    match step
    case Decode(size, packet) => s.(down := Handling(packet), net := s.net.(backlog := s.net.backlog - size))
    case ReceiveFails => s.(down := DownExit(Checking))
    case Handle(fatal) =>
      if fatal then s.(down := DownExit(Checking))
      else if Resets(s, step)
        then s.(down := Receiving, timer := s.timer.(misses := 0, sentSince := 0, quietTicks := 0))
      else s.(down := Receiving)
    case DownLeave(e) => var (flags, exit) := ExitNext(s.flags, e); s.(flags := flags, down := DownExit(exit))
  }

  /** What happens outside. */
  datatype NetStep = Arrive(bytes: nat) | BreakLink | BreakDevice

  function NetNext(net: Net, step: NetStep): Net
  {
    match step
    case Arrive(bytes) => if net.socketShut then net else net.(backlog := net.backlog + bytes)
    case BreakLink => net.(linkBroken := true)
    case BreakDevice => net.(deviceBroken := true)
  }

  // ---- runs ----

  datatype Step = Main(m: MainStep) | Uplink(u: UpStep) | Downlink(d: DownStep) | Outside(n: NetStep)

  predicate Enabled(s: State, step: Step)
  {
    match step
    case Main(m) => MainEnabled(s, m)
    case Uplink(u) => UpEnabled(s, u)
    case Downlink(d) => DownEnabled(s, d)
    case Outside(_) => true
  }

  function Next(s: State, step: Step): State
    requires Enabled(s, step)
  {
    match step
    case Main(m) => MainNext(s, m)
    case Uplink(u) => UpNext(s, u)
    case Downlink(d) => DownNext(s, d)
    case Outside(n) => s.(net := NetNext(s.net, n))
  }

  /** The state that steps taken from `s` lead to, if each of them can be taken. */
  function From(s: State, run: seq<Step>): Option<State>
  {
    if run == [] then Some(s)
    else
      match From(s, run[..|run| - 1])
      case None => None
      case Some(t) => if Enabled(t, run[|run| - 1]) then Some(Next(t, run[|run| - 1])) else None
  }

  /** The run stays within one session. */
  predicate NoStart(run: seq<Step>) { forall k :: 0 <= k < |run| ==> !IsStart(run[k]) }

  predicate IsStart(step: Step) { step.Main? && step.m.Start? }

  // ---- the flags ----

  predicate Torn(main: Main)
  {
    main.FlagSet? || main.SocketShut? || main.WakeWritten? || main.DeviceClosed? || main.DownJoined? || main.UpJoined?
  }

  predicate Untouched(main: Main) { main.Free? || main.TickChecked? || main.TickCounted? }

  predicate Running(s: State) { !s.up.UpAbsent? || !s.down.DownAbsent? }

  function Pending(exit: Exit): nat { if exit.Posting? then 1 else 0 }

  function PendingPosts(s: State): nat
  {
    (if s.up.UpExit? then Pending(s.up.exit) else 0) + if s.down.DownExit? then Pending(s.down.exit) else 0
  }

  predicate PastClaim(exit: Exit) { exit.Posting? || exit.Gone? }

  predicate FlagsInv(s: State)
  {
    && (s.flags.tearingDown <==> Torn(s.main))
    && (s.main.DownJoined? || s.main.UpJoined? || s.main.FlagCleared? ==> s.down.DownAbsent?)
    && (s.main.UpJoined? || s.main.FlagCleared? ==> s.up.UpAbsent?)
    && (Untouched(s.main) ==> (s.up.UpAbsent? <==> s.down.DownAbsent?))
    && s.flags.wins == s.flags.posted + PendingPosts(s) && s.flags.wins <= 1
    && (Running(s) ==> (s.flags.reported <==> s.flags.wins == 1))
    && (Untouched(s.main) && !Running(s) ==> !s.flags.reported)
    && (Untouched(s.main) && s.up.UpExit? && PastClaim(s.up.exit) ==> s.flags.wins == 1)
    && (Untouched(s.main) && s.down.DownExit? && PastClaim(s.down.exit) ==> s.flags.wins == 1)
  }

  lemma MainKeepsFlags(s: State, m: MainStep)
    requires FlagsInv(s) && MainEnabled(s, m)
    ensures FlagsInv(MainNext(s, m))
  {
  }

  lemma UplinkKeepsFlags(s: State, u: UpStep)
    requires FlagsInv(s) && UpEnabled(s, u)
    ensures FlagsInv(UpNext(s, u))
  {
  }

  lemma DownlinkKeepsFlags(s: State, d: DownStep)
    requires FlagsInv(s) && DownEnabled(s, d)
    ensures FlagsInv(DownNext(s, d))
  {
  }

  // ---- the timer ----

  predicate TimerInv(t: Timer, main: Main)
  {
    && t.misses <= MAX_MISSES
    && (main.TickChecked? ==> t.on && t.misses < MAX_MISSES)
    && (main.TickCounted? ==> t.on)
    && (t.on ==> t.misses <= t.sentSince + if main.TickCounted? then 1 else 0)
    && t.quietTicks <= t.misses + (if main.TickChecked? then 1 else 0)
    && t.stuck <= (if t.on then 0 else 1)
  }

  lemma MainKeepsTimer(s: State, m: MainStep)
    requires TimerInv(s.timer, s.main) && MainEnabled(s, m)
    ensures TimerInv(MainNext(s, m).timer, MainNext(s, m).main)
  {
  }

  lemma ThreadsKeepTimer(s: State, step: Step)
    requires TimerInv(s.timer, s.main) && Enabled(s, step) && !step.Main?
    ensures TimerInv(Next(s, step).timer, Next(s, step).main)
  {
    hide ExitNext, NetNext;
  }

  // ---- over runs ----

  predicate Inv(s: State) { FlagsInv(s) && TimerInv(s.timer, s.main) }

  lemma StepKeepsInv(s: State, step: Step)
    requires Inv(s) && Enabled(s, step)
    ensures Inv(Next(s, step))
  {
    hide FlagsInv, TimerInv, MainNext, UpNext, DownNext, NetNext, MainEnabled, UpEnabled, DownEnabled;
    match step
    case Main(m) =>
      MainKeepsFlags(s, m);
      MainKeepsTimer(s, m);
    case Uplink(u) =>
      UplinkKeepsFlags(s, u);
      ThreadsKeepTimer(s, step);
    case Downlink(d) =>
      DownlinkKeepsFlags(s, d);
      ThreadsKeepTimer(s, step);
    case Outside(n) => OutsideKeepsFlags(s, n);
  }

  lemma OutsideKeepsFlags(s: State, n: NetStep)
    ensures FlagsInv(s.(net := NetNext(s.net, n))) == FlagsInv(s)
  {
  }

  lemma {:induction false} RunKeepsInv(s: State, run: seq<Step>)
    requires Inv(s) && From(s, run).Some?
    ensures Inv(From(s, run).value)
    decreases |run|
  {
    hide Inv, Enabled, Next;
    if run != [] {
      RunKeepsInv(s, run[..|run| - 1]);
      StepKeepsInv(From(s, run[..|run| - 1]).value, run[|run| - 1]);
    }
  }

  lemma ReachableInv(run: seq<Step>)
    requires From(Init(), run).Some?
    ensures Inv(From(Init(), run).value)
  {
    hide From;
    RunKeepsInv(Init(), run);
  }

  // ---- at most one report ----

  /** Between a start and the end of the next teardown at most one failure is posted. */
  lemma AtMostOneReport(run: seq<Step>)
    requires From(Init(), run).Some?
    ensures From(Init(), run).value.flags.posted <= 1
  {
    hide From, TimerInv;
    ReachableInv(run);
  }

  /** If both threads have ended by themselves, exactly one failure was posted. */
  lemma ExactlyOneReport(run: seq<Step>)
    requires From(Init(), run).Some?
    requires var s := From(Init(), run).value;
             Untouched(s.main) && Running(s) && UpReturned(s.up) && DownReturned(s.down)
    ensures From(Init(), run).value.flags.posted == 1
  {
    hide From, TimerInv;
    ReachableInv(run);
  }

  /** The flags are re-armed only when neither thread is running. */
  lemma RearmedWhenAlone(run: seq<Step>, m: MainStep)
    requires From(Init(), run).Some? && (m == ClearFlag || m == Rearm) && MainEnabled(From(Init(), run).value, m)
    ensures !Running(From(Init(), run).value)
  {
    hide From, TimerInv;
    ReachableInv(run);
  }

  /** A thread that has not yet looked at the flag, or ended without a report. */
  predicate UpQuiet(up: Up)
  {
    !up.UpExit? || up.exit.Checking? || up.exit == Gone(false)
  }

  predicate DownQuiet(down: Down)
  {
    !down.DownExit? || down.exit.Checking? || down.exit == Gone(false)
  }

  predicate StaysQuiet(s: State, t: State)
  {
    && (t.flags.tearingDown || !Running(t))
    && (UpQuiet(s.up) ==> UpQuiet(t.up)) && (DownQuiet(s.down) ==> DownQuiet(t.down))
  }

  /** A thread whose check comes after teardown has set the flag never posts in this session. */
  lemma {:induction false} LateCheckPostsNothing(s: State, run: seq<Step>)
    requires Inv(s) && s.flags.tearingDown && NoStart(run) && From(s, run).Some?
    ensures StaysQuiet(s, From(s, run).value)
    decreases |run|
  {
    hide Inv, Enabled, Next, UpQuiet, DownQuiet, Running;
    if run != [] {
      var front := run[..|run| - 1];
      LateCheckPostsNothing(s, front);
      RunKeepsInv(s, front);
      QuietStep(From(s, front).value, run[|run| - 1]);
    }
  }

  lemma QuietStep(s: State, step: Step)
    requires Inv(s) && Enabled(s, step) && !IsStart(step) && (s.flags.tearingDown || !Running(s))
    ensures StaysQuiet(s, Next(s, step))
  {
    hide TimerInv;
    match step
    case Main(m) => MainKeepsFlags(s, m);
    case _ =>
  }

  /** Data that is handed on and keepalives reset the misses; nothing else that is received does. */
  lemma SignsOfLife(s: State, d: DownStep)
    requires Enabled(s, Downlink(d))
    ensures Next(s, Downlink(d)).timer.misses
            == if d == Handle(false) && s.down in {Handling(DataPacket), Handling(KeepalivePacket)} then 0
               else s.timer.misses
  {
  }

  // ---- an intentional teardown is not a failure ----

  /**
    While the threads run and no teardown has begun, nothing fails. Once the flag is set
    anything may: sends, polls and device writes, and the link and the device themselves.
   */
  predicate Healthy(s: State, step: Step)
  {
    s.flags.tearingDown || !Running(s)
    || match step
       case Outside(n) => n.Arrive?
       case Uplink(u) => u != Send(false) && u != Poll(PollFailed)
       case Downlink(d) => d != Handle(true)
       case Main(_) => true
  }

  predicate HealthyThroughout(s: State, run: seq<Step>)
  {
    forall k :: 0 <= k < |run| && From(s, run[..k]).Some? ==> Healthy(From(s, run[..k]).value, run[k])
  }

  /** Unless something fails before it, threads leave their loops only because of a teardown. */
  predicate HealthyInv(s: State)
  {
    && s.flags.posted == 0
    && (s.net.linkBroken || s.net.deviceBroken || s.net.socketShut || s.net.wakeWritten ==>
          s.flags.tearingDown || !Running(s))
    && (s.up.UpExit? ==> s.flags.tearingDown && (s.up.exit.Checking? || s.up.exit == Gone(false)))
    && (s.down.DownExit? ==> s.flags.tearingDown && (s.down.exit.Checking? || s.down.exit == Gone(false)))
  }

  lemma HealthyStep(s: State, step: Step)
    requires HealthyInv(s) && Inv(s) && Enabled(s, step) && Healthy(s, step)
    ensures HealthyInv(Next(s, step))
  {
    hide TimerInv;
    match step
    case Main(m) => MainStaysHealthy(s, m);
    case _ =>
  }

  lemma MainStaysHealthy(s: State, m: MainStep)
    requires HealthyInv(s) && FlagsInv(s) && MainEnabled(s, m)
    ensures HealthyInv(MainNext(s, m))
  {
  }

  lemma {:induction false} HealthyRun(s: State, run: seq<Step>)
    requires HealthyInv(s) && Inv(s) && From(s, run).Some? && HealthyThroughout(s, run)
    ensures HealthyInv(From(s, run).value)
    decreases |run|
  {
    hide HealthyInv, Inv, Enabled, Next, Healthy;
    if run != [] {
      var front := run[..|run| - 1];
      assert forall k :: 0 <= k < |front| ==> front[..k] == run[..k] && front[k] == run[k];
      HealthyRun(s, front);
      RunKeepsInv(s, front);
      HealthyStep(From(s, front).value, run[|run| - 1]);
    }
  }

  /**
    If nothing fails before a teardown has begun, no failure is ever posted, whatever fails
    because of the teardown or during it: the flag is set before the blocking calls return.
   */
  lemma TeardownIsNoFailure(run: seq<Step>)
    requires From(Init(), run).Some? && HealthyThroughout(Init(), run)
    ensures From(Init(), run).value.flags.posted == 0
  {
    hide From, HealthyThroughout;
    HealthyRun(Init(), run);
  }

  // ---- teardown finishes ----

  /** From here on nothing the threads wait for can keep them waiting. */
  predicate Unblocked(s: State) { s.net.socketShut && s.net.wakeOpen && s.net.wakeWritten }

  function ExitRank(exit: Exit): nat
  {
    match exit
    case Checking => 3
    case Claiming => 2
    case Posting => 1
    case Gone(_) => 0
  }

  /** How many more steps the uplink thread can take. */
  function UpRank(s: State): nat
  {
    match s.up
    case UpAbsent => 0
    case Polling => 4 + s.net.interrupts
    case Reading => 6 + s.net.interrupts
    case Sending => 5 + s.net.interrupts
    case UpExit(exit) => ExitRank(exit)
  }

  /** The downlink still decodes what was received before the socket was shut down. */
  function DownRank(s: State): nat
  {
    match s.down
    case DownAbsent => 0
    case Receiving => 4 + s.net.backlog
    case Handling(_) => 5 + s.net.backlog
    case DownExit(exit) => ExitRank(exit)
  }

  predicate RanksFall(s: State, t: State, step: Step)
  {
    && Unblocked(t)
    && (if step.Uplink? then UpRank(t) < UpRank(s) else UpRank(t) <= UpRank(s))
    && (if step.Downlink? then DownRank(t) < DownRank(s) else DownRank(t) <= DownRank(s))
  }

  lemma RankFalls(s: State, step: Step)
    requires Unblocked(s) && Enabled(s, step) && !IsStart(step)
    ensures RanksFall(s, Next(s, step), step)
  {
    match step
    case Main(m) => MainRanks(s, m);
    case Uplink(u) =>
    case Downlink(d) =>
    case Outside(n) =>
  }

  lemma MainRanks(s: State, m: MainStep)
    requires Unblocked(s) && MainEnabled(s, m) && !m.Start?
    ensures RanksFall(s, MainNext(s, m), Main(m))
  {
  }

  function UpSteps(run: seq<Step>): nat
  {
    if run == [] then 0 else UpSteps(run[..|run| - 1]) + if run[|run| - 1].Uplink? then 1 else 0
  }

  function DownSteps(run: seq<Step>): nat
  {
    if run == [] then 0 else DownSteps(run[..|run| - 1]) + if run[|run| - 1].Downlink? then 1 else 0
  }

  /** Once unblocked, each thread ends after finitely many of its own steps, whoever runs when. */
  lemma {:induction false} ThreadsRunOut(s: State, run: seq<Step>)
    requires Unblocked(s) && NoStart(run) && From(s, run).Some?
    ensures Unblocked(From(s, run).value)
    ensures UpSteps(run) + UpRank(From(s, run).value) <= UpRank(s)
    ensures DownSteps(run) + DownRank(From(s, run).value) <= DownRank(s)
    decreases |run|
  {
    hide Unblocked, Enabled, Next, UpRank, DownRank;
    if run != [] {
      var front := run[..|run| - 1];
      ThreadsRunOut(s, front);
      RankFalls(From(s, front).value, run[|run| - 1]);
    }
  }

  /** An unblocked thread that has not returned can always take a step. */
  lemma NeverStuck(s: State) returns (u: UpStep, d: DownStep)
    requires Unblocked(s)
    ensures UpReturned(s.up) || UpEnabled(s, u)
    ensures DownReturned(s.down) || DownEnabled(s, d)
  {
    u := match s.up
         case Polling => Poll(Woken)
         case Reading => Read(Again)
         case UpExit(Checking) => UpLeave(Check)
         case UpExit(Claiming) => UpLeave(Claim)
         case UpExit(Posting) => UpLeave(Post)
         case _ => Send(true);
    d := match s.down
         case Receiving => ReceiveFails
         case DownExit(Checking) => DownLeave(Check)
         case DownExit(Claiming) => DownLeave(Claim)
         case DownExit(Posting) => DownLeave(Post)
         case _ => Handle(false);
  }

  /** When the threads have run out of steps both joins go through. */
  lemma JoinsComplete(s: State)
    requires Unblocked(s) && (forall u :: !UpEnabled(s, u)) && (forall d :: !DownEnabled(s, d))
    ensures s.main.DeviceClosed? ==> MainEnabled(s, JoinDown)
    ensures s.main.DownJoined? ==> MainEnabled(s, JoinUp)
  {
    hide UpEnabled, DownEnabled;
    var u, d := NeverStuck(s);
  }

  function PacketsSent(run: seq<Step>): nat
  {
    if run == [] then 0 else PacketsSent(run[..|run| - 1]) + if run[|run| - 1] == Uplink(Send(true)) then 1 else 0
  }

  function MaySend(s: State): nat { if s.up.Reading? || s.up.Sending? then 1 else 0 }

  /** At most one more packet goes up after the wake descriptor was written. */
  lemma {:induction false} OneMorePacket(s: State, run: seq<Step>)
    requires Unblocked(s) && NoStart(run) && From(s, run).Some?
    ensures PacketsSent(run) + MaySend(From(s, run).value) <= MaySend(s) <= 1
    decreases |run|
  {
    hide Enabled, Next, UpRank, DownRank;
    if run != [] {
      var front := run[..|run| - 1];
      ThreadsRunOut(s, front);
      OneMorePacket(s, front);
      SendStep(From(s, front).value, run[|run| - 1]);
    }
  }

  lemma SendStep(s: State, step: Step)
    requires Unblocked(s) && Enabled(s, step) && !IsStart(step)
    ensures MaySend(Next(s, step)) + (if step == Uplink(Send(true)) then 1 else 0) <= MaySend(s)
  {
    hide ExitNext, NetNext;
  }

  /** The socket is shut before the wake descriptor is written, so that write unblocks both. */
  predicate ShutInv(s: State)
  {
    && (PastShut(s.main) ==> s.net.socketShut)
    && (PastShut(s.main) && !s.main.SocketShut? ==> s.net.wakeWritten == s.net.wakeOpen)
  }

  predicate PastShut(main: Main)
  {
    main.SocketShut? || main.WakeWritten? || main.DeviceClosed? || main.DownJoined?
    || main.UpJoined? || main.FlagCleared?
  }

  lemma ShutStep(s: State, step: Step)
    requires ShutInv(s) && Enabled(s, step)
    ensures ShutInv(Next(s, step))
  {
    hide ExitNext;
  }

  lemma {:induction false} RunKeepsShut(s: State, run: seq<Step>)
    requires ShutInv(s) && From(s, run).Some?
    ensures ShutInv(From(s, run).value)
    decreases |run|
  {
    hide ShutInv, Enabled, Next;
    if run != [] {
      RunKeepsShut(s, run[..|run| - 1]);
      ShutStep(From(s, run[..|run| - 1]).value, run[|run| - 1]);
    }
  }

  /** In every run a teardown that waits for a thread has unblocked it, if there is a wake descriptor. */
  lemma TeardownUnblocks(run: seq<Step>)
    requires From(Init(), run).Some?
    requires var s := From(Init(), run).value; s.main.DeviceClosed? || s.main.DownJoined?
    ensures var s := From(Init(), run).value; s.net.wakeOpen ==> Unblocked(s)
  {
    hide From;
    RunKeepsShut(Init(), run);
  }

  // ---- the keepalive monitor ----

  /** The counter of misses stays within its limit in every run. */
  lemma MissesBounded(run: seq<Step>)
    requires From(Init(), run).Some?
    ensures From(Init(), run).value.timer.misses <= MAX_MISSES
  {
    hide From, FlagsInv;
    ReachableInv(run);
  }

  /** A tunnel is reported stuck only after three keepalives without a sign of life. */
  lemma StuckOnlyAfterThree(run: seq<Step>)
    requires From(Init(), run).Some? && MainEnabled(From(Init(), run).value, TickCheck)
    requires MainNext(From(Init(), run).value, TickCheck).timer.stuck > From(Init(), run).value.timer.stuck
    ensures From(Init(), run).value.timer.sentSince >= 3
  {
    hide From, FlagsInv;
    ReachableInv(run);
  }

  predicate IsTick(step: Step) { step.Main? && step.m.TickCheck? }

  function Ticks(run: seq<Step>): nat
  {
    if run == [] then 0 else Ticks(run[..|run| - 1]) + if IsTick(run[|run| - 1]) then 1 else 0
  }

  predicate IsSignOfLife(s: State, step: Step) { step.Downlink? && Resets(s, step.d) }

  /** No packet that counts as a sign of life is handled in the run. */
  predicate Silent(s: State, run: seq<Step>)
  {
    forall k :: 0 <= k < |run| && From(s, run[..k]).Some? ==> !IsSignOfLife(From(s, run[..k]).value, run[k])
  }

  lemma SilentPrefix(s: State, run: seq<Step>)
    requires run != [] && Silent(s, run) && From(s, run).Some?
    ensures var front := run[..|run| - 1];
            Silent(s, front) && !IsSignOfLife(From(s, front).value, run[|run| - 1])
  {
    hide IsSignOfLife, Enabled, Next;
    var front := run[..|run| - 1];
    assert From(s, front).Some?;
    forall k | 0 <= k < |front| && From(s, front[..k]).Some?
      ensures !IsSignOfLife(From(s, front[..k]).value, front[k])
    {
      assert front[..k] == run[..k];
    }
  }

  /** While the link is silent a tick either passes or is the one that reports. */
  lemma {:induction false} TicksAddUp(s: State, run: seq<Step>)
    requires NoStart(run) && From(s, run).Some? && Silent(s, run)
    ensures var t := From(s, run).value.timer;
            && Ticks(run) + s.timer.quietTicks + s.timer.stuck == t.quietTicks + t.stuck
            && (t.on ==> s.timer.on) && (!s.timer.on ==> Ticks(run) == 0)
    decreases |run|
  {
    hide Enabled, Next, IsSignOfLife, IsTick;
    if run != [] {
      var front := run[..|run| - 1];
      SilentPrefix(s, run);
      TicksAddUp(s, front);
      TickStep(From(s, front).value, run[|run| - 1]);
    }
  }

  lemma TickStep(s: State, step: Step)
    requires Enabled(s, step) && !IsStart(step)
    ensures (Next(s, step).timer.on ==> s.timer.on) && (IsTick(step) ==> s.timer.on)
    ensures !IsSignOfLife(s, step) ==>
              var t := Next(s, step).timer;
              t.quietTicks + t.stuck == s.timer.quietTicks + s.timer.stuck + if IsTick(step) then 1 else 0
  {
    hide ExitNext, NetNext;
  }

  /**
    While the link is silent at most four ticks come in a session, and if the fourth comes it
    reports the tunnel stuck and the timer is off.
   */
  lemma SilentLinkIsReported(s: State, run: seq<Step>)
    requires Inv(s) && NoStart(run) && From(s, run).Some? && Silent(s, run)
    ensures var t := From(s, run).value.timer;
            Ticks(run) <= 4 && (Ticks(run) == 4 ==> !t.on && t.stuck == s.timer.stuck + 1)
  {
    hide From, Silent, NoStart, FlagsInv;
    TicksAddUp(s, run);
    RunKeepsInv(s, run);
  }

  /** Once off, the timer fires no more in this session, whatever arrives. */
  lemma {:induction false} TimerStaysOff(s: State, run: seq<Step>)
    requires !s.timer.on && NoStart(run) && From(s, run).Some?
    ensures !From(s, run).value.timer.on && Ticks(run) == 0
    decreases |run|
  {
    hide Enabled, Next, IsTick;
    if run != [] {
      var front := run[..|run| - 1];
      TimerStaysOff(s, front);
      TickStep(From(s, front).value, run[|run| - 1]);
    }
  }

  // ---- the callback in one piece ----

  /** A tick that nothing interrupts. */
  function Tick(t: Timer, sendOk: bool): Timer
  {
    var checked := MainNext(Init().(timer := t), TickCheck);
    if checked.main.Free? then checked.timer else MainNext(MainNext(checked, TickCount), TickSend(sendOk)).timer
  }

  class KeepaliveMonitor {
    var timer: Timer

    constructor ()
      ensures timer == Timer(true, 0, 0, 0, 0)
    {
      timer := Timer(true, 0, 0, 0, 0);
    }

    /** `on_keepalive_tick`; the result says whether the source stays. */
    method OnKeepaliveTick(sendOk: bool) returns (stays: bool)
      requires timer.on
      modifies this
      ensures timer == Tick(old(timer), sendOk) && stays == timer.on
    {
      if timer.misses >= MAX_MISSES {
        timer := timer.(on := false, stuck := timer.stuck + 1);
        return false;
      }
      timer := timer.(misses := timer.misses + 1, quietTicks := timer.quietTicks + 1);
      if !sendOk {
        timer := timer.(on := false);
        return false;
      }
      timer := timer.(sentSince := timer.sentSince + 1);
      return true;
    }
  }
}
