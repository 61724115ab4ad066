/**
  When a bypass route stays in the kernel: no teardown deletes it. It lives on the physical
  interface, so nobody else takes it back. An add replaces the route to the same address.
 */
module LostRoutes {
  import opened Wrappers
  import opened Bits
  import opened Session
  import opened BypassRoute

  /** Some way to go on that adds no further route, here at once or later, empties the table. */
  ghost predicate NothingLost(run: seq<Step>)
  {
    exists more :: AddsNothing(more) && After(run + more).Some? && TableEmpty(After(run + more).value)
  }

  predicate AddsNothing(more: seq<Step>) { forall k :: 0 <= k < |more| ==> !more[k].AddBypass? }

  predicate TableEmpty(s: State) { s.w.routes == map[] }

  // ---- the order of events ----

  predicate AddsAt(run: seq<Step>, k: nat) { k < |run| && run[k].AddBypass? }

  /** The `j`-th step of the run runs `teardown_tunnel`. */
  predicate TearsAt(run: seq<Step>, j: nat)
  {
    && j < |run| && After(run[..j]).Some? && Enabled(After(run[..j]).value, run[j])
    && TearsDown(After(run[..j]).value, run[j])
  }

  ghost predicate TornBetween(run: seq<Step>, k: nat, l: nat)
  {
    exists j: nat :: k < j < l && TearsAt(run, j)
  }

  /** A teardown lies strictly between any two adds. */
  ghost predicate Separated(run: seq<Step>)
  {
    forall k: nat, l: nat :: AddsAt(run, k) && AddsAt(run, l) && k < l ==> TornBetween(run, k, l)
  }

  /** No teardown has come since some add. */
  ghost predicate Pending(run: seq<Step>)
  {
    exists k: nat :: AddsAt(run, k) && !TornBetween(run, k, |run|)
  }

  /** A teardown can still come: the main loop runs, or it can be finalized as all callbacks have run. */
  predicate CanTearDown(s: State)
  {
    s.phase != Quit || AllDelivered(s)
  }

  predicate AllDelivered(s: State) { forall t :: t in s.tasks ==> t.stage.Delivered? }

  // ---- the events tell what is recorded ----

  lemma EventsOf(run: seq<Step>, step: Step)
    ensures forall j :: 0 <= j < |run| ==> TearsAt(run + [step], j) == TearsAt(run, j)
    ensures forall j :: 0 <= j < |run| ==> AddsAt(run + [step], j) == AddsAt(run, j)
    ensures AddsAt(run + [step], |run|) <==> step.AddBypass?
    ensures After(run).Some? && Enabled(After(run).value, step) ==>
              (TearsAt(run + [step], |run|) <==> TearsDown(After(run).value, step))
  {
    hide After, Enabled, TearsDown;
    var all := run + [step];
    forall j | 0 <= j <= |run| ensures all[..j] == run[..j] {
    }
    assert all[..|run|] == run;
  }

  lemma BetweenOf(run: seq<Step>, step: Step, k: nat, l: nat)
    requires k <= |run| && l <= |run|
    ensures TornBetween(run + [step], k, l) <==> TornBetween(run, k, l)
    ensures TornBetween(run + [step], k, |run| + 1)
            <==> TornBetween(run, k, |run|) || (k < |run| && TearsAt(run + [step], |run|))
  {
    hide TearsAt;
    EventsOf(run, step);
    var all := run + [step];
    if TornBetween(run, k, l) {
      var j :| k < j < l && TearsAt(run, j);
      assert TearsAt(all, j);
    }
    if TornBetween(run, k, |run|) {
      var j :| k < j < |run| && TearsAt(run, j);
      assert TearsAt(all, j);
    }
    if TornBetween(all, k, |run| + 1) {
      var j :| k < j < |run| + 1 && TearsAt(all, j);
      assert j < |run| ==> TearsAt(run, j);
    }
  }

  lemma SeparatedStep(run: seq<Step>, step: Step)
    ensures Separated(run + [step]) <==> Separated(run) && (step.AddBypass? ==> !Pending(run))
  {
    hide TearsAt, TornBetween, AddsAt;
    var all := run + [step];
    EventsOf(run, step);
    forall k, l | 0 <= k <= |run| && 0 <= l <= |run| ensures TornBetween(all, k, l) <==> TornBetween(run, k, l) {
      BetweenOf(run, step, k, l);
    }
    AddsInside(run);
    AddsInside(all);
    if Separated(all) {
      forall k: nat, l: nat | AddsAt(run, k) && AddsAt(run, l) && k < l ensures TornBetween(run, k, l) {
        assert AddsAt(all, k) && AddsAt(all, l);
      }
      if step.AddBypass? {
        forall k: nat | AddsAt(run, k) ensures TornBetween(run, k, |run|) {
          assert AddsAt(all, k) && AddsAt(all, |run|);
        }
      }
    }
  }

  lemma AddsInside(run: seq<Step>)
    ensures forall k: nat :: AddsAt(run, k) ==> k < |run|
  {
  }

  lemma PendingStep(run: seq<Step>, step: Step)
    requires After(run).Some? && Enabled(After(run).value, step)
    ensures Pending(run + [step])
            <==> step.AddBypass? || (Pending(run) && !TearsDown(After(run).value, step))
  {
    hide TearsAt, TornBetween, AddsAt, After, Enabled, TearsDown;
    var all := run + [step];
    EventsOf(run, step);
    AddsInside(run);
    AddsInside(all);
    if step.AddBypass? {
      NothingBehind(all, |run|);
      assert AddsAt(all, |run|) && !TornBetween(all, |run|, |all|);
    }
    if Pending(run) && !TearsDown(After(run).value, step) {
      var k: nat :| AddsAt(run, k) && !TornBetween(run, k, |run|);
      BetweenOf(run, step, k, 0);
      assert AddsAt(all, k) && !TornBetween(all, k, |all|);
    }
    if Pending(all) {
      var k: nat :| AddsAt(all, k) && !TornBetween(all, k, |all|);
      BetweenOf(run, step, k, 0);
      if k < |run| {
        assert AddsAt(run, k) && !TornBetween(run, k, |run|);
      }
    }
  }

  lemma NothingBehind(run: seq<Step>, k: nat)
    requires k + 1 == |run|
    ensures !TornBetween(run, k, |run|)
  {
  }

  lemma NoEvents()
    ensures Separated([]) && !Pending([])
  {
  }

  /** A route is recorded exactly while an add waits for its teardown. */
  lemma {:induction false} RecordByEvents(run: seq<Step>)
    requires After(run).Some?
    ensures After(run).value.p.bypass.Some? <==> Pending(run)
    ensures After(run).value.w.overwritten == multiset{} <==> Separated(run)
    decreases |run|
  {
    hide Enabled, Next, TearsDown, Separated, Pending;
    if run == [] {
      NoEvents();
    } else {
      var before, step := run[..|run| - 1], run[|run| - 1];
      var s := After(before).value;
      assert run == before + [step];
      RecordByEvents(before);
      RecordLasts(s, step);
      TearsOrAdds(s, step);
      OverwriteStep(s, step);
      SeparatedStep(before, step);
      PendingStep(before, step);
      EmptySum(s.w.overwritten, s.p.bypass);
    }
  }

  lemma TearsOrAdds(s: State, step: Step)
    requires Enabled(s, step)
    ensures TearsDown(s, step) ==> !step.AddBypass?
  {
  }

  lemma EmptySum(m: multiset<Bypass>, x: Option<Bypass>)
    ensures m + One(x) == multiset{} <==> m == multiset{} && x == None
  {
    if x.Some? {
      assert (m + One(x))[x.value] > 0;
    } else {
      assert m + One(x) == m;
    }
  }

  // ---- the events tell what is in the table ----

  /** The route that the `k`-th step adds. */
  function AddedAt(run: seq<Step>, k: nat): Option<Bypass>
  {
    if AddsAt(run, k) && After(run[..k]).Some? && Enabled(After(run[..k]).value, run[k])
    then Some(RouteOf(After(run[..k]).value, run[k])) else None
  }

  predicate AddsFor(run: seq<Step>, k: nat, d: word)
  {
    AddedAt(run, k).Some? && AddedAt(run, k).value.dest == d
  }

  ghost predicate LastFor(run: seq<Step>, k: nat, d: word)
  {
    AddsFor(run, k, d) && forall l: nat :: AddsFor(run, l, d) ==> l <= k
  }

  /** After the last add for an address another add came, and no teardown between the two. */
  ghost predicate LeftBehind(run: seq<Step>, d: word)
  {
    exists k: nat, l: nat :: LastFor(run, k, d) && AddsAt(run, l) && k < l && !TornBetween(run, k, l)
  }

  /** The last add of all was for an address, and no teardown has come since. */
  ghost predicate AwaitsTeardown(run: seq<Step>, d: word)
  {
    exists k: nat :: LastFor(run, k, d) && LastOfAll(run, k) && !TornBetween(run, k, |run|)
  }

  ghost predicate LastOfAll(run: seq<Step>, k: nat) { forall l: nat :: AddsAt(run, l) ==> l <= k }

  predicate Recorded(s: State, d: word) { s.p.bypass.Some? && s.p.bypass.value.dest == d }

  /** A route to the address is in the kernel, and the plugin has no record of it. */
  predicate Unrecorded(s: State, d: word) { d in s.w.routes && !Recorded(s, d) }

  /** What is recorded is in the kernel. */
  predicate TableFits(s: State)
  {
    s.p.bypass.Some? ==> s.p.bypass.value.dest in s.w.routes && s.w.routes[s.p.bypass.value.dest] == s.p.bypass.value
  }

  lemma TableStep(s: State, step: Step, d: word)
    requires TableFits(s) && Enabled(s, step)
    ensures var t := Next(s, step);
            && TableFits(t)
            && (Recorded(t, d) <==>
                  if step.AddBypass? then RouteOf(s, step).dest == d else Recorded(s, d) && !TearsDown(s, step))
            && (Unrecorded(t, d) <==>
                  if step.AddBypass? then RouteOf(s, step).dest != d && (Unrecorded(s, d) || Recorded(s, d))
                  else Unrecorded(s, d))
            && (Unrecorded(t, d) ==> t.w.routes[d] == s.w.routes[d])
  {
    hide Next, TearsDown, Enabled;
    RecordLasts(s, step);
    RoutesStep(s, step);
    TearsOrAdds(s, step);
  }

  lemma LastForStep(run: seq<Step>, step: Step, d: word)
    requires After(run).Some? && Enabled(After(run).value, step)
    ensures var mine := step.AddBypass? && RouteOf(After(run).value, step).dest == d;
            forall k: nat :: LastFor(run + [step], k, d) <==> if mine then k == |run| else LastFor(run, k, d)
    ensures forall k: nat :: LastFor(run, k, d) ==> AddsAt(run, k) && k < |run|
  {
    hide After, Enabled;
    var all := run + [step];
    forall k: nat | k <= |run| ensures all[..k] == run[..k] && (k < |run| ==> AddedAt(all, k) == AddedAt(run, k)) {
    }
    assert all[..|run|] == run;
    assert AddsFor(all, |run|, d) <==> step.AddBypass? && RouteOf(After(run).value, step).dest == d;
    assert forall k: nat :: AddsFor(all, k, d) ==> k <= |run|;
    assert forall k: nat :: AddsFor(run, k, d) <==> k < |run| && AddsFor(all, k, d);
  }

  lemma LastOfAllStep(run: seq<Step>, step: Step, k: nat)
    requires k < |run|
    ensures LastOfAll(run + [step], k) <==> LastOfAll(run, k) && !step.AddBypass?
  {
    hide After, Enabled, TearsDown;
    EventsOf(run, step);
    AddsInside(run);
    AddsInside(run + [step]);
    if LastOfAll(run + [step], k) {
      forall l: nat | AddsAt(run, l) ensures l <= k {
        assert AddsAt(run + [step], l);
      }
      assert !AddsAt(run + [step], |run|);
    }
  }

  lemma AwaitsStep(run: seq<Step>, step: Step, d: word)
    requires After(run).Some? && Enabled(After(run).value, step)
    ensures AwaitsTeardown(run + [step], d)
            <==> if step.AddBypass? then RouteOf(After(run).value, step).dest == d
                 else AwaitsTeardown(run, d) && !TearsDown(After(run).value, step)
  {
    hide After, Enabled, TearsDown, TearsAt, TornBetween, LastFor, LastOfAll, AddsAt;
    var all := run + [step];
    EventsOf(run, step);
    LastForStep(run, step, d);
    if step.AddBypass? {
      NothingBehind(all, |run|);
      AddsEnd(all);
    }
    forall k: nat | k < |run|
      ensures TornBetween(all, k, |all|) <==> TornBetween(run, k, |run|) || TearsDown(After(run).value, step)
      ensures LastOfAll(all, k) <==> LastOfAll(run, k) && !step.AddBypass?
    {
      BetweenOf(run, step, k, 0);
      LastOfAllStep(run, step, k);
    }
  }

  lemma AddsEnd(run: seq<Step>)
    requires run != []
    ensures LastOfAll(run, |run| - 1)
  {
  }

  lemma LeftBehindStep(run: seq<Step>, step: Step, d: word)
    requires After(run).Some? && Enabled(After(run).value, step)
    ensures LeftBehind(run + [step], d)
            <==> if step.AddBypass? then RouteOf(After(run).value, step).dest != d
                                         && (LeftBehind(run, d) || AwaitsTeardown(run, d))
                 else LeftBehind(run, d)
  {
    hide After, Enabled, TearsDown, TearsAt, TornBetween, LastFor, LastOfAll, AddsAt;
    var all := run + [step];
    EventsOf(run, step);
    AddsInside(all);
    LastForStep(run, step, d);
    forall k: nat, l: nat | k < |run| && l <= |run|
      ensures TornBetween(all, k, l) <==> TornBetween(run, k, l)
    {
      BetweenOf(run, step, k, l);
    }
    if step.AddBypass? && RouteOf(After(run).value, step).dest != d {
      forall k: nat | LastFor(run, k, d) && !TornBetween(run, k, |run|)
        ensures LeftBehind(run, d) || AwaitsTeardown(run, d)
      {
        LastOrLater(run, k, d);
      }
      if AwaitsTeardown(run, d) {
        var k: nat :| LastFor(run, k, d) && LastOfAll(run, k) && !TornBetween(run, k, |run|);
        assert LastFor(all, k, d) && AddsAt(all, |run|) && !TornBetween(all, k, |run|);
      }
      if LeftBehind(all, d) {
        var k: nat, l: nat :| LastFor(all, k, d) && AddsAt(all, l) && k < l && !TornBetween(all, k, l);
        assert LastFor(run, k, d) && (l < |run| ==> AddsAt(run, l));
      }
    }
    if LeftBehind(run, d) && !(step.AddBypass? && RouteOf(After(run).value, step).dest == d) {
      var k: nat, l: nat :| LastFor(run, k, d) && AddsAt(run, l) && k < l && !TornBetween(run, k, l);
      assert l < |run| by { AddsInside(run); }
      assert LastFor(all, k, d) && AddsAt(all, l) && !TornBetween(all, k, l);
    }
  }

  lemma LastOrLater(run: seq<Step>, k: nat, d: word)
    requires LastFor(run, k, d) && !TornBetween(run, k, |run|)
    ensures LeftBehind(run, d) || AwaitsTeardown(run, d)
  {
    hide TearsAt, LastFor;
    if !LastOfAll(run, k) {
      var l: nat :| AddsAt(run, l) && l > k;
      assert !TornBetween(run, k, l);
    }
  }

  /**
    The order of adds and teardowns says what is in the kernel: what is recorded, and every
    route after whose last add another add came before any teardown. The plugin has no record
    of the latter.
   */
  lemma {:induction false} RoutesByEvents(run: seq<Step>, d: word)
    requires After(run).Some?
    ensures TableFits(After(run).value)
    ensures Recorded(After(run).value, d) <==> AwaitsTeardown(run, d)
    ensures Unrecorded(After(run).value, d) <==> LeftBehind(run, d)
    decreases |run|
  {
    hide Enabled, Next, TearsDown, LeftBehind, AwaitsTeardown, Recorded, Unrecorded, TableFits;
    if run == [] {
      EmptyTable(d);
    } else {
      var before, step := run[..|run| - 1], run[|run| - 1];
      assert run == before + [step];
      RoutesByEvents(before, d);
      TableStep(After(before).value, step, d);
      AwaitsStep(before, step, d);
      LeftBehindStep(before, step, d);
    }
  }

  lemma EmptyTable(d: word)
    ensures TableFits(Init()) && !Recorded(Init(), d) && !Unrecorded(Init(), d)
    ensures !AwaitsTeardown([], d) && !LeftBehind([], d)
  {
  }

  /** A route in the kernel is the one that was added last for its address. */
  lemma {:induction false} EntryIsLastAdd(run: seq<Step>, k: nat, d: word)
    requires After(run).Some? && LastFor(run, k, d) && d in After(run).value.w.routes
    ensures After(run).value.w.routes[d] == AddedAt(run, k).value
    decreases |run|
  {
    hide Enabled, Next, TearsDown, LastFor, TableFits;
    if run == [] {
      NeverAdded(k, d);
    } else {
      var before, step := run[..|run| - 1], run[|run| - 1];
      var s := After(before).value;
      assert run == before + [step];
      RoutesByEvents(before, d);
      LastForStep(before, step, d);
      RoutesStep(s, step);
      TearsOrAdds(s, step);
      assert run[..|before|] == before;
      if !(step.AddBypass? && RouteOf(s, step).dest == d) {
        EntryIsLastAdd(before, k, d);
        assert before[..k] == run[..k];
      }
    }
  }

  lemma NeverAdded(k: nat, d: word)
    ensures !LastFor([], k, d)
  {
  }

  /** An unrecorded route leaves the kernel by nothing but another add for its address. */
  lemma {:induction false} LeftUntilReplaced(run: seq<Step>, more: seq<Step>, d: word)
    requires After(run).Some? && Unrecorded(After(run).value, d) && After(run + more).Some?
    requires forall k: nat :: AddsFor(run + more, k, d) ==> k < |run|
    ensures Unrecorded(After(run + more).value, d)
    ensures After(run + more).value.w.routes[d] == After(run).value.w.routes[d]
    decreases |more|
  {
    hide Enabled, Next, TearsDown, Unrecorded, TableFits;
    if more == [] {
      assert run + more == run;
    } else {
      var front, all, step := more[..|more| - 1], run + more, more[|more| - 1];
      var before := run + front;
      assert all[..|all| - 1] == before && all == before + [step];
      forall k: nat | AddsFor(before, k, d) ensures k < |run| {
        assert before[..k] == all[..k];
        assert AddsFor(all, k, d);
      }
      LeftUntilReplaced(run, front, d);
      RoutesByEvents(before, d);
      TableStep(After(before).value, step, d);
      assert !AddsFor(all, |before|, d);
    }
  }

  // ---- what can still happen ----

  /** After the main loop has ended with a callback outstanding, no teardown ever comes. */
  predicate Stranded(s: State) { !CanTearDown(s) && s.p.bypass.Some? }

  lemma StrandedStep(s: State, step: Step)
    requires Stranded(s) && Enabled(s, step)
    ensures Stranded(Next(s, step))
  {
    hide FieldsHold, Both, GatewayAddress;
    var t :| t in s.tasks && !t.stage.Delivered?;
    var i :| 0 <= i < |s.tasks| && s.tasks[i] == t;
    assert Next(s, step).tasks[i] in Next(s, step).tasks && !Next(s, step).tasks[i].stage.Delivered?;
  }

  /** Then something is in the kernel for good, whatever happens. */
  lemma {:induction false} StrandedForGood(run: seq<Step>, more: seq<Step>)
    requires After(run).Some? && Stranded(After(run).value) && After(run + more).Some?
    ensures Stranded(After(run + more).value) && !TableEmpty(After(run + more).value)
    decreases |more|
  {
    hide Stranded, Enabled, Next, TableEmpty;
    if more == [] {
      assert run + more == run;
    } else {
      var front, all := more[..|more| - 1], run + more;
      assert all[..|all| - 1] == run + front && all[|all| - 1] == more[|more| - 1];
      StrandedForGood(run, front);
      StrandedStep(After(run + front).value, more[|more| - 1]);
    }
    StrandedIsNotEmpty(run + more);
  }

  lemma StrandedIsNotEmpty(run: seq<Step>)
    requires After(run).Some? && Stranded(After(run).value)
    ensures !TableEmpty(After(run).value)
  {
    hide After, CanTearDown, LeftBehind, AwaitsTeardown;
    RoutesByEvents(run, After(run).value.p.bypass.value.dest);
  }

  /** The teardown that is still possible. */
  lemma TearingDownEmpties(run: seq<Step>) returns (more: seq<Step>)
    requires After(run).Some? && (After(run).value.p.bypass.Some? ==> CanTearDown(After(run).value))
    requires forall d: word :: !LeftBehind(run, d)
    ensures AddsNothing(more) && After(run + more).Some? && TableEmpty(After(run + more).value)
  {
    hide After, Next, FieldsHold, LeftBehind, AwaitsTeardown;
    var s := After(run).value;
    forall d: word ensures !Unrecorded(s, d) {
      RoutesByEvents(run, d);
    }
    if s.p.bypass == None {
      more := [];
      assert run + more == run;
      NothingInTable(s);
    } else {
      var down := if s.phase != Quit then Disconnect else Finalize;
      more := [down];
      AfterStep(run, down);
      RecordLasts(s, down);
      forall d: word ensures !Unrecorded(Next(s, down), d) {
        RoutesByEvents(run, d);
        TableStep(s, down, d);
      }
      NothingInTable(Next(s, down));
    }
  }

  lemma NothingInTable(s: State)
    requires s.p.bypass == None && forall d: word :: !Unrecorded(s, d)
    ensures TableEmpty(s)
  {
    forall d | d in s.w.routes ensures false {
      assert Unrecorded(s, d);
    }
  }

  /**
    Nothing is lost if and only if no add leaves a route to another address behind, and a
    teardown has come since the last add or can still come: the main loop is running, or
    every callback has run, so that the plugin is finalized.
   */
  lemma LostExactly(run: seq<Step>)
    requires After(run).Some?
    ensures NothingLost(run)
            <==> (forall d: word :: !LeftBehind(run, d)) && (Pending(run) ==> CanTearDown(After(run).value))
  {
    hide After, Separated, Pending, CanTearDown, LeftBehind, AddsNothing, TableEmpty;
    RecordByEvents(run);
    if d: word :| LeftBehind(run, d) {
      forall more | AddsNothing(more) && After(run + more).Some? ensures !TableEmpty(After(run + more).value) {
        LeftForGood(run, more, d);
      }
    } else if Stranded(After(run).value) {
      forall more | After(run + more).Some? ensures !TableEmpty(After(run + more).value) {
        StrandedForGood(run, more);
      }
    } else {
      var more := TearingDownEmpties(run);
    }
  }

  lemma LeftForGood(run: seq<Step>, more: seq<Step>, d: word)
    requires After(run).Some? && LeftBehind(run, d) && AddsNothing(more) && After(run + more).Some?
    ensures !TableEmpty(After(run + more).value)
  {
    hide After, LeftBehind, AwaitsTeardown;
    RoutesByEvents(run, d);
    assert forall j :: 0 <= j < |more| ==> (run + more)[|run| + j] == more[j];
    LeftUntilReplaced(run, more, d);
  }

  /** A plugin that only ever knew one gateway leaves nothing behind, however its workers overlap. */
  lemma OneGatewayLeavesNothing(run: seq<Step>, gateway: word)
    requires After(run).Some? && After(run).value.phase != Quit
    requires forall k: nat :: AddsAt(run, k) ==> AddsFor(run, k, gateway)
    ensures After(run + [Disconnect]).Some? && TableEmpty(After(run + [Disconnect]).value)
  {
    hide After, Next, AddedAt, AwaitsTeardown, FieldsHold;
    AfterStep(run, Disconnect);
    var s := After(run).value;
    forall d: word ensures !Unrecorded(Next(s, Disconnect), d) {
      OnlyAddsFor(run, gateway, d);
      RoutesByEvents(run, d);
      TableStep(s, Disconnect, d);
    }
    RecordLasts(s, Disconnect);
    NothingInTable(Next(s, Disconnect));
  }

  lemma OnlyAddsFor(run: seq<Step>, gateway: word, d: word)
    requires forall k: nat :: AddsAt(run, k) ==> AddsFor(run, k, gateway)
    ensures !LeftBehind(run, d)
  {
    hide After, TornBetween;
  }

  /** With a teardown between any two adds nothing is left behind. */
  lemma SeparatedLeavesNothing(run: seq<Step>, d: word)
    requires Separated(run)
    ensures !LeftBehind(run, d)
  {
    hide After, TornBetween;
  }
}
