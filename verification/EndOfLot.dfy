/**
 * How a bulk lot ends when nobody stops it: which plans have a finalisation check see their end in every run, what a
 * lot loses whose end no check saw, and what the status route can still show of it.
 */
module EndOfLot {
  import opened PhasePayload
  import opened PhaseCallbacks
  import opened LotPipeline

  /** No stop, no cancel, and every task that ends makes its check. */
  predicate Quiet(e: Event) {
    !e.SetHalt? && !e.Cancel? && !e.StopAll? && !e.Vanish?
  }

  predicate QuietRun(events: seq<Event>) {
    forall i | 0 <= i < |events| :: Quiet(events[i])
  }

  predicate IsPoll(e: Event) {
    e.PollRead? || e.PollWrite?
  }

  predicate NoPolls(events: seq<Event>) {
    forall i | 0 <= i < |events| :: !IsPoll(events[i])
  }

  predicate AllClosed(checks: seq<Check>) {
    forall k | 0 <= k < |checks| :: checks[k].Closed?
  }

  /** All phases are written, all tasks have ended, and so have all checks. */
  predicate AtRest(l: Lot) {
    l.phases.stage.Over? && l.phases.live <= Done(l) && AllClosed(l.checks)
  }

  /** The plan defers VPN groups. */
  predicate DefersVpn(stage: Stage) {
    stage.AwaitDirect? && stage.vpn != []
  }

  // ---------------------------------------------------------------- without VPN groups some check sees the end

  /** A check that will see every child ended. */
  predicate Hopeful(l: Lot, c: Check) {
    c.Fresh? || (c.Looking? && forall i | c.at <= i < |c.ids| :: c.ids[i] in Done(l))
  }

  ghost predicate Promised(l: Lot) {
    l.checked || exists k | 0 <= k < |l.checks| :: Hopeful(l, l.checks[k])
  }

  /** No VPN group is deferred, and the tasks launched and to come make up the total. */
  ghost predicate Complete(p: Phases) {
    && (p.stage.AwaitDirect? ==> p.stage.vpn == []) && !p.stage.AwaitJump? && !p.stage.Launched?
    && p.total > 0
    && (!p.stage.Halted? ==> |p.children| + Coming(p.stage) == p.total)
  }

  /** The last task of the lot has ended. */
  predicate LastEnded(p: Phases, done: set<TaskId>) {
    !p.stage.Halted? && Coming(p.stage) == 0 && p.live <= done
  }

  /** From the moment the last task has ended, a check is under way that will see it. */
  ghost predicate EndsSeen(l: Lot) {
    Complete(l.phases) && (LastEnded(l.phases, Done(l)) ==> Promised(l))
  }

  /** Tasks that a callback launches have not ended. */
  lemma NothingLaunched(l: Lot, e: Event)
    requires Inv(l) && Enabled(l, e) && IsPhaseStep(e) && !l.phases.stage.Launched?
    requires PhasesAfter(l, e).live <= Done(l)
    ensures |PhasesAfter(l, e).children| <= |l.phases.children|
  {
    var q := PhasesAfter(l, e);
    PhasesKept(l, e);
    DistinctChildren(q);
    DistinctChildren(l.phases);
    ChildrenLive(q);
    SubsetSize(TaskSet(q.children), TaskSet(l.phases.children));
  }

  lemma ChildrenLive(p: Phases)
    requires Sound(p)
    ensures TaskSet(p.children) <= p.live
  {
    assert forall id | id in p.children :: id in Tasks(p);
  }

  lemma CompleteOn(l: Lot, e: Event)
    requires Sound(l.phases) && Complete(l.phases) && Enabled(l, e) && IsPhaseStep(e)
    ensures var p, q := l.phases, PhasesAfter(l, e);
            Complete(q) && p.live <= q.live && !p.stage.Halted?
  {
    PhasesKept(l, e);
  }

  lemma PromiseStays(l: Lot, m: Lot)
    requires Promised(l) && m.checked == l.checked && m.checks == l.checks && Done(l) <= Done(m)
    ensures Promised(m)
  {
    if !l.checked {
      var k :| 0 <= k < |l.checks| && Hopeful(l, l.checks[k]);
      assert Hopeful(m, m.checks[k]);
    }
  }

  lemma PhaseStepSeen(l: Lot, e: Event)
    requires Inv(l) && EndsSeen(l) && Enabled(l, e) && IsPhaseStep(e)
    ensures EndsSeen(Apply(l, e))
  {
    var m, q := Apply(l, e), PhasesAfter(l, e);
    CompleteOn(l, e);
    assert Done(m) == Done(l);
    if LastEnded(q, Done(l)) {
      NothingLaunched(l, e);
      assert LastEnded(l.phases, Done(l));
      PromiseStays(l, m);
    }
  }

  /** A hopeful check stays so until it has seen the end. */
  lemma HopeMoves(l: Lot, c: Check, enabled: bool)
    requires TasksSound(l) && CheckSound(l, c) && Hopeful(l, c)
    requires |l.phases.children| == l.phases.total > 0 && l.phases.live <= Done(l)
    ensures Hopeful(l, CheckAfter(l, c, enabled)) || (c.Looking? && c.at >= |c.ids|)
  {
    ChildrenLive(l.phases);
    forall id | id in l.phases.children ensures id in Done(l) {
      assert id in TaskSet(l.phases.children);
    }
  }

  lemma CheckKeepsTasks(l: Lot, k: nat, enabled: bool, candidates: bool)
    requires k < |l.checks|
    ensures var m := CheckNext(l, k, enabled, candidates);
            m.phases == l.phases && m.good == l.good && m.bad == l.bad && (l.checked ==> m.checked)
  {
  }

  lemma PromiseMoves(l: Lot, j: nat, k: nat, enabled: bool, candidates: bool)
    requires Inv(l) && j < |l.checks| && k < |l.checks| && Hopeful(l, l.checks[k])
    requires |l.phases.children| == l.phases.total > 0 && l.phases.live <= Done(l)
    ensures Promised(CheckNext(l, j, enabled, candidates))
  {
    var m, c := CheckNext(l, j, enabled, candidates), l.checks[k];
    assert CheckSound(l, c);
    HopeMoves(l, c, enabled);
    if !m.checked {
      CheckKeepsTasks(l, j, enabled, candidates);
      assert m.checks[k] == if k == j then CheckAfter(l, c, enabled) else c;
      assert Hopeful(m, m.checks[k]);
    }
  }

  lemma AdvanceSeen(l: Lot, j: nat, enabled: bool, candidates: bool)
    requires Inv(l) && EndsSeen(l) && j < |l.checks|
    ensures EndsSeen(CheckNext(l, j, enabled, candidates))
  {
    var m := CheckNext(l, j, enabled, candidates);
    CheckKeepsTasks(l, j, enabled, candidates);
    if LastEnded(l.phases, Done(l)) && !l.checked {
      var k :| 0 <= k < |l.checks| && Hopeful(l, l.checks[k]);
      PromiseMoves(l, j, k, enabled, candidates);
    }
  }

  lemma TaskStepSeen(l: Lot, e: Event)
    requires EndsSeen(l) && Enabled(l, e) && (e.Finish? || e.Return? || e.Retry?)
    ensures EndsSeen(Apply(l, e))
  {
    var m := Apply(l, e);
    if !e.Return? {
      assert Hopeful(m, m.checks[|l.checks|]);
    } else if Promised(l) {
      PromiseStays(l, m);
    }
  }

  lemma PollStepSeen(l: Lot, e: Event)
    requires Inv(l) && EndsSeen(l) && Enabled(l, e) && IsPoll(e)
    ensures EndsSeen(Apply(l, e))
  {
    var m := Apply(l, e);
    if e.PollWrite? {
      assert PollSound(l, l.polls[e.k]);
      TotalKept(l, l.polls[e.k]);
    }
    assert m.phases == l.phases;
    if Promised(l) {
      PromiseStays(l, m);
    }
  }

  lemma {:induction false} SeenAlongRun(l: Lot, events: seq<Event>)
    requires Inv(l) && EndsSeen(l) && IsRun(l, events) && QuietRun(events)
    ensures EndsSeen(EndOf(l, events))
    decreases |events|
  {
    if events != [] {
      var e := events[0];
      StepKept(l, e);
      if IsPhaseStep(e) {
        PhaseStepSeen(l, e);
      } else if e.Advance? {
        AdvanceSeen(l, e.k, e.enabled, e.candidates);
      } else if IsPoll(e) {
        PollStepSeen(l, e);
      } else {
        TaskStepSeen(l, e);
      }
      SeenAlongRun(Apply(l, e), events[1..]);
    }
  }

  lemma PlanEndsSeen(l: Lot)
    requires Written(l) && WellFormedPlan(l.phases.stage) && l.phases.total > 0 && !DefersVpn(l.phases.stage)
    ensures EndsSeen(l)
  {
    var p := l.phases;
    if p.stage.AwaitDirect? {
      JumpEntriesSize(p.stage.jump);
      VpnLaunchesSize(p.stage.vpn);
    }
    if p.children != [] {
      assert p.children[0] in p.live;
    }
  }

  /** However the tasks of a plan without VPN groups end, a check finds the whole lot ended. */
  lemma EndIsSeen(l: Lot, events: seq<Event>)
    requires Written(l) && WellFormedPlan(l.phases.stage) && l.phases.total > 0 && !DefersVpn(l.phases.stage)
    requires IsRun(l, events) && QuietRun(events) && AtRest(EndOf(l, events))
    ensures EndOf(l, events).checked
  {
    WrittenInv(l);
    PlanEndsSeen(l);
    SeenAlongRun(l, events);
  }

  // ---------------------------------------------------------------- with VPN groups it can stay unseen

  /** Only tasks and checks moved. */
  predicate OnlyEnded(l: Lot, m: Lot) {
    && m.phases == l.phases && m.view == l.view && m.halt == l.halt && m.checked == l.checked && m.polls == l.polls
    && m.phases.live <= Done(m) && AllClosed(m.checks)
  }

  predicate QuietTo(l: Lot, events: seq<Event>, m: Lot) {
    IsRun(l, events) && QuietRun(events) && NoPolls(events) && EndOf(l, events) == m
  }

  lemma NoSteps(l: Lot)
    ensures QuietTo(l, [], l)
  {
  }

  lemma QuietFirst(l: Lot, e: Event, rest: seq<Event>, m: Lot)
    requires Quiet(e) && !IsPoll(e) && Enabled(l, e) && QuietTo(Apply(l, e), rest, m)
    ensures QuietTo(l, [e] + rest, m)
  {
    RunStep(l, e, rest);
  }

  lemma {:induction false} QuietConcat(l: Lot, a: seq<Event>, m: Lot, b: seq<Event>, n: Lot)
    requires QuietTo(l, a, m) && QuietTo(m, b, n)
    ensures QuietTo(l, a + b, n)
    decreases |a|
  {
    if a == [] {
      assert a + b == b;
    } else {
      var e, rest := a[0], a[1..];
      QuietConcat(Apply(l, e), rest, m, b, n);
      QuietFirst(l, e, rest + b, n);
      assert [e] + (rest + b) == a + b;
    }
  }

  /** While the count is incomplete, every task can end and its check give up. */
  lemma FinishAll(l: Lot) returns (events: seq<Event>, m: Lot)
    requires |l.phases.children| < l.phases.total && AllClosed(l.checks)
    ensures QuietTo(l, events, m) && OnlyEnded(l, m)
    decreases l.phases.live - Done(l)
  {
    if id :| id in l.phases.live && id !in Done(l) {
      var a := Apply(l, Finish(id, true, true));
      var b := Apply(a, Advance(|l.checks|, true, true));
      assert b.checks == l.checks + [Closed];
      var rest;
      rest, m := FinishAll(b);
      QuietFirst(a, Advance(|l.checks|, true, true), rest, m);
      events := [Advance(|l.checks|, true, true)] + rest;
      QuietFirst(l, Finish(id, true, true), events, m);
      events := [Finish(id, true, true)] + events;
    } else {
      NoSteps(l);
      events, m := [], l;
    }
  }

  /** A lot about to launch its last phase, with no check under way. */
  ghost predicate Idle(l: Lot) {
    && Inv(l) && AllClosed(l.checks) && !l.checked && !l.halt && !l.view.cancelled
    && |l.phases.children| < l.phases.total && l.phases.live <= Done(l)
  }

  lemma IdleOn(l: Lot, events: seq<Event>, m: Lot)
    requires Inv(l) && !l.checked && !l.halt && !l.view.cancelled && |l.phases.children| < l.phases.total
    requires QuietTo(l, events, m) && OnlyEnded(l, m)
    ensures Idle(m)
  {
    InvAlongRun(l, events);
  }

  lemma EndUnwritten(l: Lot) returns (events: seq<Event>, m: Lot)
    requires l.phases.stage.Launched? && |l.phases.children| < l.phases.total && AllClosed(l.checks) && !l.checked
    ensures QuietTo(l, events, m) && AtRest(m) && !m.checked
  {
    var ended, a := FinishAll(l);
    m := Apply(a, Write);
    NoSteps(m);
    QuietFirst(a, Write, [], m);
    QuietConcat(l, ended, a, [Write] + [], m);
    events := ended + ([Write] + []);
  }

  /** The groups are launched, end before their ids are written, and so does each of their checks. */
  lemma LaunchUnseen(l: Lot, vpn: seq<PhaseGroup>, e: Event) returns (events: seq<Event>, m: Lot)
    requires Idle(l) && Enabled(l, e) && (e.DirectDone? || e.JumpDone?)
    requires vpn != [] && (forall g | g in vpn :: Enqueueable(g)) && PhasesAfter(l, e) == StartVpn(l.phases, vpn, false)
    ensures QuietTo(l, events, m) && AtRest(m) && !m.checked
  {
    var a := Apply(l, e);
    var rest;
    rest, m := EndUnwritten(a);
    QuietFirst(l, e, rest, m);
    events := [e] + rest;
  }

  /** The direct tasks end, then the Jump Host tasks if there are any, then the VPN groups before they are written. */
  lemma SilencingRun(l: Lot) returns (events: seq<Event>, m: Lot)
    requires Written(l) && WellFormedPlan(l.phases.stage) && DefersVpn(l.phases.stage) && !l.halt
    ensures QuietTo(l, events, m) && AtRest(m) && !m.checked
  {
    var jump, vpn := l.phases.stage.jump, l.phases.stage.vpn;
    WrittenInv(l);
    var first, a := FinishAll(l);
    IdleOn(l, first, a);
    var rest;
    if JumpEntries(jump) == [] {
      rest, m := LaunchUnseen(a, vpn, DirectDone);
    } else {
      rest, m := JumpThenVpn(a, jump, vpn);
    }
    QuietConcat(l, first, a, rest, m);
    events := first + rest;
  }

  lemma JumpLaunched(l: Lot, jump: seq<PhaseGroup>, vpn: seq<PhaseGroup>)
    requires Idle(l) && Enabled(l, DirectDone) && l.phases.stage.jump == jump && l.phases.stage.vpn == vpn
    requires JumpEntries(jump) != [] && vpn != []
    ensures var m := Apply(l, DirectDone);
            && Inv(m) && AllClosed(m.checks) && !m.checked && !m.halt && !m.view.cancelled
            && |m.phases.children| < m.phases.total
            && m.phases.stage.AwaitJump? && m.phases.stage.vpn == vpn && m.phases.stage.waits <= m.phases.live
  {
    StepKept(l, DirectDone);
  }

  lemma JumpThenVpn(l: Lot, jump: seq<PhaseGroup>, vpn: seq<PhaseGroup>) returns (events: seq<Event>, m: Lot)
    requires Idle(l) && Enabled(l, DirectDone) && l.phases.stage.jump == jump && l.phases.stage.vpn == vpn
    requires JumpEntries(jump) != [] && vpn != [] && forall g | g in vpn :: Enqueueable(g)
    ensures QuietTo(l, events, m) && AtRest(m) && !m.checked
  {
    var a := Apply(l, DirectDone);
    JumpLaunched(l, jump, vpn);
    var jumps, b := FinishAll(a);
    IdleOn(a, jumps, b);
    var rest;
    rest, m := LaunchUnseen(b, vpn, JumpDone);
    QuietConcat(a, jumps, b, rest, m);
    QuietFirst(l, DirectDone, jumps + rest, m);
    events := [DirectDone] + (jumps + rest);
  }

  // ---------------------------------------------------------------- the main results

  /**
   * A check finds the lot ended in every undisturbed run to the end, whatever is polled meanwhile, exactly when the
   * plan defers no VPN groups.
   */
  lemma EndSeenIffNoVpn(l: Lot)
    requires Written(l) && WellFormedPlan(l.phases.stage) && l.phases.total > 0 && !l.halt
    ensures (forall events | IsRun(l, events) && QuietRun(events) && AtRest(EndOf(l, events)) ::
               EndOf(l, events).checked)
        <==> !DefersVpn(l.phases.stage)
  {
    if DefersVpn(l.phases.stage) {
      var events, m := SilencingRun(l);
      assert AtRest(EndOf(l, events)) && !EndOf(l, events).checked;
    } else {
      forall events | IsRun(l, events) && QuietRun(events) && AtRest(EndOf(l, events))
        ensures EndOf(l, events).checked
      {
        EndIsSeen(l, events);
      }
    }
  }

  predicate OnlyChecksDeclared(l: Lot) {
    && l.view.declared == l.checked
    && forall k | 0 <= k < |l.checks| :: l.checks[k].Looking? && l.checks[k].completed ==> l.checked
  }

  lemma StepDeclares(l: Lot, e: Event)
    requires OnlyChecksDeclared(l) && Enabled(l, e) && Quiet(e) && !IsPoll(e)
    ensures OnlyChecksDeclared(Apply(l, e))
  {
    if e.Advance? {
      CheckDeclares(l, e.k, e.enabled, e.candidates);
    }
  }

  lemma CheckDeclares(l: Lot, k: nat, enabled: bool, candidates: bool)
    requires OnlyChecksDeclared(l) && k < |l.checks|
    ensures OnlyChecksDeclared(CheckNext(l, k, enabled, candidates))
  {
    var m, c := CheckNext(l, k, enabled, candidates), l.checks[k];
    var next := CheckAfter(l, c, enabled);
    assert next.Looking? && next.completed ==> m.checked;
    assert m.view.declared == m.checked;
    forall j | 0 <= j < |m.checks| && m.checks[j].Looking? && m.checks[j].completed ensures m.checked {
      if j != k {
        assert m.checks[j] == l.checks[j];
      }
    }
  }

  /** Where no refresh writes, only a check declares. */
  lemma {:induction false} DeclaredByChecks(l: Lot, events: seq<Event>)
    requires IsRun(l, events) && QuietRun(events) && NoPolls(events) && OnlyChecksDeclared(l)
    ensures EndOf(l, events).view.declared == EndOf(l, events).checked
    decreases |events|
  {
    if events != [] {
      StepDeclares(l, events[0]);
      DeclaredByChecks(Apply(l, events[0]), events[1..]);
    }
  }

  /** The same for the declaration itself, in runs without a refresh. */
  lemma DeclaredIffNoVpn(l: Lot)
    requires Written(l) && WellFormedPlan(l.phases.stage) && l.phases.total > 0 && !l.halt
    ensures (forall events | IsRun(l, events) && QuietRun(events) && NoPolls(events) && AtRest(EndOf(l, events)) ::
               EndOf(l, events).view.declared)
        <==> !DefersVpn(l.phases.stage)
  {
    if DefersVpn(l.phases.stage) {
      var events, m := SilencingRun(l);
      DeclaredByChecks(l, events);
      assert AtRest(EndOf(l, events)) && !EndOf(l, events).view.declared;
    } else {
      forall events | IsRun(l, events) && QuietRun(events) && NoPolls(events) && AtRest(EndOf(l, events))
        ensures EndOf(l, events).view.declared
      {
        EndIsSeen(l, events);
        DeclaredByChecks(l, events);
      }
    }
  }

  // ---------------------------------------------------------------- the follow-up

  /** Follow-ups are enabled and there are candidates for one. */
  predicate Willing(e: Event) {
    e.Advance? ==> e.enabled && e.candidates
  }

  predicate WillingRun(events: seq<Event>) {
    forall i | 0 <= i < |events| :: Willing(events[i])
  }

  /** A lot whose end was seen has decided or will, and one that decided has its follow-up or will. */
  ghost predicate FollowUpDue(l: Lot) {
    && l.kind == BackupBulk && !l.asked
    && (l.checked && !l.decided ==> exists k | 0 <= k < |l.checks| :: l.checks[k].Wrote? || l.checks[k].Ready?)
    && (l.decided && l.followUps == 0 ==> exists k | 0 <= k < |l.checks| :: l.checks[k].Won?)
  }

  lemma ChecksAddedDue(l: Lot, m: Lot)
    requires FollowUpDue(l) && !m.asked && m.kind == l.kind
    requires m.checked == l.checked && m.decided == l.decided && m.followUps == l.followUps
    requires m.checks == l.checks || m.checks == l.checks + [Fresh]
    ensures FollowUpDue(m)
  {
    if m.checked && !m.decided {
      var k :| 0 <= k < |l.checks| && (l.checks[k].Wrote? || l.checks[k].Ready?);
      assert m.checks[k] == l.checks[k];
    }
    if m.decided && m.followUps == 0 {
      var k :| 0 <= k < |l.checks| && l.checks[k].Won?;
      assert m.checks[k] == l.checks[k];
    }
  }

  lemma DecisionDue(l: Lot, j: nat)
    requires Inv(l) && FollowUpDue(l) && j < |l.checks|
    requires CheckNext(l, j, true, true).checked && !CheckNext(l, j, true, true).decided
    ensures var m := CheckNext(l, j, true, true);
            exists k | 0 <= k < |m.checks| :: m.checks[k].Wrote? || m.checks[k].Ready?
  {
    var m, c := CheckNext(l, j, true, true), l.checks[j];
    assert CheckSound(l, c);
    if l.checked {
      var k :| 0 <= k < |l.checks| && (l.checks[k].Wrote? || l.checks[k].Ready?);
      assert m.checks[k].Wrote? || m.checks[k].Ready?;
    } else {
      assert m.checks[j].Wrote? || m.checks[j].Ready?;
    }
  }

  lemma SchedulingDue(l: Lot, j: nat)
    requires Inv(l) && FollowUpDue(l) && j < |l.checks|
    requires CheckNext(l, j, true, true).decided && CheckNext(l, j, true, true).followUps == 0
    ensures var m := CheckNext(l, j, true, true); exists k | 0 <= k < |m.checks| :: m.checks[k].Won?
  {
    var m := CheckNext(l, j, true, true);
    if l.decided {
      var k :| 0 <= k < |l.checks| && l.checks[k].Won?;
      assert m.checks[k].Won?;
    } else {
      assert m.checks[j].Won?;
    }
  }

  lemma AdvanceDue(l: Lot, j: nat)
    requires Inv(l) && FollowUpDue(l) && j < |l.checks|
    ensures FollowUpDue(CheckNext(l, j, true, true))
  {
    var m := CheckNext(l, j, true, true);
    if m.checked && !m.decided {
      DecisionDue(l, j);
    }
    if m.decided && m.followUps == 0 {
      SchedulingDue(l, j);
    }
  }

  /** Only a check's own step decides anything. */
  lemma NothingDecided(l: Lot, e: Event)
    requires Enabled(l, e) && !e.Advance?
    ensures var m := Apply(l, e);
            && m.kind == l.kind && m.checked == l.checked && m.decided == l.decided && m.followUps == l.followUps
            && (m.checks == l.checks || m.checks == l.checks + [Fresh])
            && (m.asked == l.asked || e.Cancel? || e.StopAll?)
  {
    match e
    case Finish(id, ok, heard) =>
    case Return(id) =>
    case Retry(id) =>
    case Vanish(id) =>
    case SetHalt(on) =>
    case Cancel(forced) =>
    case StopAll =>
    case PollRead =>
    case PollWrite(k, okSeen, badSeen) =>
    case _ =>
  }

  lemma StepDue(l: Lot, e: Event)
    requires Inv(l) && FollowUpDue(l) && Enabled(l, e) && Quiet(e) && Willing(e)
    ensures FollowUpDue(Apply(l, e))
  {
    if e.Advance? {
      AdvanceDue(l, e.k);
    } else {
      NothingDecided(l, e);
      ChecksAddedDue(l, Apply(l, e));
    }
  }

  lemma {:induction false} DueAlongRun(l: Lot, events: seq<Event>)
    requires Inv(l) && FollowUpDue(l) && IsRun(l, events) && QuietRun(events) && WillingRun(events)
    ensures FollowUpDue(EndOf(l, events))
    decreases |events|
  {
    if events != [] {
      StepKept(l, events[0]);
      StepDue(l, events[0]);
      DueAlongRun(Apply(l, events[0]), events[1..]);
    }
  }

  /** An undisturbed bulk lot that wants its follow-up gets it exactly when a check saw its end. */
  lemma FollowUpIffSeen(l: Lot, events: seq<Event>)
    requires Written(l) && l.kind == BackupBulk && IsRun(l, events) && QuietRun(events) && WillingRun(events)
    requires AtRest(EndOf(l, events))
    ensures EndOf(l, events).followUps == (if EndOf(l, events).checked then 1 else 0)
  {
    WrittenInv(l);
    InvAlongRun(l, events);
    DueAlongRun(l, events);
  }

  /** Everything ended, and no check saw it. */
  predicate Silent(l: Lot) {
    AtRest(l) && !l.checked
  }

  /** Nothing that can still happen to a silent lot, polls and cancels included, schedules a follow-up. */
  lemma {:induction false} SilentLosesFollowUp(l: Lot, events: seq<Event>)
    requires Silent(l) && IsRun(l, events)
    ensures Silent(EndOf(l, events)) && EndOf(l, events).followUps == l.followUps
    decreases |events|
  {
    if events != [] {
      SilentLosesFollowUp(Apply(l, events[0]), events[1..]);
    }
  }

  // ---------------------------------------------------------------- what the status route shows

  /** The next refresh that sees all tasks ended shows a lot at rest as finished; the follow-up stays lost. */
  lemma RefreshShowsEnd(l: Lot) returns (events: seq<Event>)
    requires Inv(l) && AtRest(l) && |l.phases.children| == l.phases.total > 0
    ensures IsRun(l, events)
    ensures var m := EndOf(l, events); m.view.declared && m.followUps == l.followUps && m.checked == l.checked
  {
    if l.view.declared {
      return [];
    }
    var m := Apply(l, PollRead);
    var rest := AllSeen(m, |l.polls|);
    RunStep(l, PollRead, rest);
    events := [PollRead] + rest;
  }

  lemma AllCounted(l: Lot)
    requires TasksSound(l) && l.phases.live <= Done(l)
    ensures Among(l.phases.children, l.good) + Among(l.phases.children, l.bad) == |l.phases.children|
  {
    DistinctChildren(l.phases);
    ChildrenLive(l.phases);
    CountSplit(l.phases.children, l.good, l.bad);
  }

  lemma SeenShows(now: View, read: View, total: int, okSeen: nat, badSeen: nat)
    requires okSeen + badSeen >= total
    ensures Refreshed(now, read, total, okSeen, badSeen).declared
  {
  }

  lemma AllSeen(l: Lot, k: nat) returns (events: seq<Event>)
    requires TasksSound(l) && l.phases.live <= Done(l) && k < |l.polls| && l.polls[k].Reading?
    requires l.polls[k].children == l.phases.children && l.polls[k].total == l.phases.total == |l.phases.children| > 0
    ensures IsRun(l, events)
    ensures var m := EndOf(l, events); m.view.declared && m.followUps == l.followUps && m.checked == l.checked
  {
    var ids := l.phases.children;
    var e := PollWrite(k, TaskSet(ids) * l.good, TaskSet(ids) * l.bad);
    AllCounted(l);
    assert TaskSet(ids) * l.bad <= MayReportBad(l, l.polls[k]);
    SeenShows(l.view, l.polls[k].view, |ids|, Among(ids, l.good), Among(ids, l.bad));
    assert PollTotal(l.polls[k]) == |ids|;
    RunStep(l, e, []);
    events := [e] + [];
  }

  /** A request that has read the lot changes no step of the others. */
  lemma {:induction false} PollsApart(l: Lot, events: seq<Event>, polls: seq<Poll>)
    requires IsRun(l, events) && NoPolls(events)
    ensures IsRun(l.(polls := polls), events)
    ensures EndOf(l.(polls := polls), events) == EndOf(l, events).(polls := polls)
    decreases |events|
  {
    if events != [] {
      SamePollsApart(l, events[0], polls);
      PollsApart(Apply(l, events[0]), events[1..], polls);
    }
  }

  lemma SamePollsApart(l: Lot, e: Event, polls: seq<Poll>)
    requires Enabled(l, e) && !IsPoll(e)
    ensures Enabled(l.(polls := polls), e) && Apply(l.(polls := polls), e) == Apply(l, e).(polls := polls)
  {
    if e.Advance? {
      SameCheckApart(l, e.k, e.enabled, e.candidates, polls);
    } else if IsPhaseStep(e) {
      SamePhasesApart(l, e, polls);
    } else {
      SameRestApart(l, e, polls);
    }
  }

  lemma SameRestApart(l: Lot, e: Event, polls: seq<Poll>)
    requires Enabled(l, e) && !IsPoll(e) && !e.Advance? && !IsPhaseStep(e)
    ensures Enabled(l.(polls := polls), e) && Apply(l.(polls := polls), e) == Apply(l, e).(polls := polls)
  {
    assert Done(l.(polls := polls)) == Done(l);
    match e
    case Finish(id, ok, heard) =>
    case Return(id) =>
    case Retry(id) =>
    case Vanish(id) =>
    case SetHalt(on) =>
    case Cancel(forced) =>
    case StopAll =>
  }

  lemma SamePhasesApart(l: Lot, e: Event, polls: seq<Poll>)
    requires Enabled(l, e) && IsPhaseStep(e)
    ensures Enabled(l.(polls := polls), e) && PhasesAfter(l.(polls := polls), e) == PhasesAfter(l, e)
  {
    assert Done(l.(polls := polls)) == Done(l);
  }

  lemma SameNextApart(l: Lot, c: Check, enabled: bool, polls: seq<Poll>)
    ensures CheckAfter(l.(polls := polls), c, enabled) == CheckAfter(l, c, enabled)
  {
    assert Done(l.(polls := polls)) == Done(l);
  }

  lemma SameCheckApart(l: Lot, k: nat, enabled: bool, candidates: bool, polls: seq<Poll>)
    requires k < |l.checks|
    ensures CheckNext(l.(polls := polls), k, enabled, candidates)
         == CheckNext(l, k, enabled, candidates).(polls := polls)
  {
    SameNextApart(l, l.checks[k], enabled, polls);
  }

  lemma {:induction false} RunThen(l: Lot, a: seq<Event>, e: Event)
    requires IsRun(l, a) && Enabled(EndOf(l, a), e)
    ensures IsRun(l, a + [e]) && EndOf(l, a + [e]) == Apply(EndOf(l, a), e)
    decreases |a|
  {
    if a == [] {
      assert a + [e] == [e] + [];
      RunStep(l, e, []);
    } else {
      RunThen(Apply(l, a[0]), a[1..], e);
      RunStep(l, a[0], a[1..] + [e]);
      assert [a[0]] + (a[1..] + [e]) == a + [e];
    }
  }

  /**
   * The declaration itself is not safe from the status route: to every run there is one with a single slow request
   * beside it, begun before it and written after it, that ends with the lot not declared and all else the same.
   */
  lemma StaleRefreshHides(l: Lot, events: seq<Event>) returns (polled: seq<Event>)
    requires Written(l) && l.phases.total > 0 && IsRun(l, events) && NoPolls(events)
    ensures IsRun(l, polled)
    ensures var m, n := EndOf(l, events), EndOf(l, polled);
            && !n.view.declared
            && n.phases == m.phases && Done(n) == Done(m) && n.checks == m.checks && n.checked == m.checked
            && n.followUps == m.followUps
  {
    WrittenInv(l);
    InvAlongRun(l, events);
    var p := Reading(l.phases.children, l.phases.total, l.view);
    var a := Apply(l, PollRead);
    PollsApart(l, events, [p]);
    assert a == l.(polls := [p]);
    RunThen(a, events, PollWrite(0, {}, {}));
    RunStep(l, PollRead, events + [PollWrite(0, {}, {})]);
    polled := [PollRead] + (events + [PollWrite(0, {}, {})]);
  }

  // ---------------------------------------------------------------- what keeps a follow-up away

  /** A check that can still schedule a follow-up without reading the lot's cancel flag again. */
  predicate PastCancel(c: Check) {
    c.Won? || (c.Ready? && !c.cancelled) || (c.Looking? && c.completed && !c.cancelled)
  }

  ghost predicate HoldsBack(l: Lot) {
    l.view.cancelled && forall k | 0 <= k < |l.checks| :: !PastCancel(l.checks[k])
  }

  predicate NoRefresh(events: seq<Event>) {
    forall i | 0 <= i < |events| :: !events[i].PollWrite?
  }

  lemma CheckHoldsBack(l: Lot, k: nat, enabled: bool, candidates: bool)
    requires HoldsBack(l) && k < |l.checks|
    ensures var m := CheckNext(l, k, enabled, candidates);
            HoldsBack(m) && m.followUps == l.followUps && m.decided == l.decided
  {
    var m := CheckNext(l, k, enabled, candidates);
    assert !PastCancel(l.checks[k]);
    assert !PastCancel(CheckAfter(l, l.checks[k], enabled));
    forall j | 0 <= j < |m.checks| ensures !PastCancel(m.checks[j]) {
      assert j != k ==> m.checks[j] == l.checks[j];
    }
  }

  lemma StepHoldsBack(l: Lot, e: Event)
    requires HoldsBack(l) && Enabled(l, e) && !e.PollWrite?
    ensures HoldsBack(Apply(l, e)) && Apply(l, e).followUps == l.followUps
  {
    if e.Advance? {
      CheckHoldsBack(l, e.k, e.enabled, e.candidates);
    } else {
      NothingDecided(l, e);
      assert Apply(l, e).view.cancelled;
    }
  }

  /**
   * A cancelled lot schedules no follow-up any more, once every check that had read it before the cancel has ended,
   * as long as no refresh writes.
   */
  lemma {:induction false} CancelStopsFollowUp(l: Lot, events: seq<Event>)
    requires HoldsBack(l) && IsRun(l, events) && NoRefresh(events)
    ensures EndOf(l, events).followUps == l.followUps && EndOf(l, events).view.cancelled
    decreases |events|
  {
    if events != [] {
      StepHoldsBack(l, events[0]);
      CancelStopsFollowUp(Apply(l, events[0]), events[1..]);
    }
  }

  /** A refresh that read the lot before a cancel and writes after it takes the cancel back. */
  lemma StaleRefreshForgetsCancel(l: Lot, forced: set<TaskId>) returns (events: seq<Event>)
    requires !l.view.declared && !l.view.cancelled && forced <= TaskSet(l.phases.children)
    ensures IsRun(l, events) && Cancel(forced) in events
    ensures var m := EndOf(l, events); !m.view.cancelled && m.asked && m.halt && m.phases.stage == l.phases.stage
  {
    var k := |l.polls|;
    var a := Apply(l, PollRead);
    var b := Apply(a, Cancel(forced));
    RunStep(b, PollWrite(k, {}, {}), []);
    RunStep(a, Cancel(forced), [PollWrite(k, {}, {})] + []);
    events := [PollRead] + ([Cancel(forced)] + ([PollWrite(k, {}, {})] + []));
    RunStep(l, PollRead, [Cancel(forced)] + ([PollWrite(k, {}, {})] + []));
    assert events[1] == Cancel(forced);
  }

  predicate Unwilling(e: Event) {
    e.Advance? ==> !e.candidates
  }

  /** Without candidates no run schedules a follow-up. */
  lemma {:induction false} NoCandidatesNoFollowUp(l: Lot, events: seq<Event>)
    requires IsRun(l, events) && forall i | 0 <= i < |events| :: Unwilling(events[i])
    ensures EndOf(l, events).followUps == l.followUps
    decreases |events|
  {
    if events != [] {
      if !events[0].Advance? {
        NothingDecided(l, events[0]);
      }
      assert Unwilling(events[0]);
      NoCandidatesNoFollowUp(Apply(l, events[0]), events[1..]);
    }
  }

  predicate SwitchedOff(e: Event) {
    e.Advance? ==> !e.enabled
  }

  /** With follow-ups switched off no run decides on one. */
  lemma {:induction false} SwitchedOffNoFollowUp(l: Lot, events: seq<Event>)
    requires IsRun(l, events) && forall i | 0 <= i < |events| :: SwitchedOff(events[i])
    requires forall k | 0 <= k < |l.checks| :: !l.checks[k].Won?
    ensures EndOf(l, events).followUps == l.followUps && EndOf(l, events).decided == l.decided
    decreases |events|
  {
    if events != [] {
      var m := Apply(l, events[0]);
      assert SwitchedOff(events[0]);
      OffStep(l, events[0]);
      SwitchedOffNoFollowUp(m, events[1..]);
    }
  }

  lemma OffStep(l: Lot, e: Event)
    requires Enabled(l, e) && SwitchedOff(e) && forall k | 0 <= k < |l.checks| :: !l.checks[k].Won?
    ensures var m := Apply(l, e);
            && m.followUps == l.followUps && m.decided == l.decided
            && forall k | 0 <= k < |m.checks| :: !m.checks[k].Won?
  {
    if !e.Advance? {
      NothingDecided(l, e);
    }
  }

  // ---------------------------------------------------------------- the counters of a refresh

  /** No counter a refresh writes lies below what it saw or what it had read, nor above the sum of both. */
  lemma RefreshCounts(now: View, read: View, total: int, okSeen: nat, badSeen: nat)
    requires read.ok >= 0 && read.bad >= 0
    ensures var v := Refreshed(now, read, total, okSeen, badSeen);
            && okSeen <= v.ok && read.ok <= v.ok <= okSeen + read.ok && (v.ok == okSeen || v.ok == read.ok)
            && badSeen <= v.bad && read.bad <= v.bad <= badSeen + read.bad && (v.bad == badSeen || v.bad == read.bad)
            && v.done >= v.ok + v.bad && v.done >= read.done
            && (v.declared <==> total <= 0 || read.declared || v.done >= total)
            && v.cancelled == read.cancelled && v.forced == now.forced
  {
  }
}
