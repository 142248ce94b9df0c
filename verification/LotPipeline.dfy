/**
 * A bulk lot of app/tasks/backups.py from its written plan to its end: phases joined by callbacks, the finalisation
 * checks of its tasks with the follow-up one of them may schedule, and the routes of app/web/tenant that refresh,
 * cancel and stop the same lot. Every interleaving of their steps is a run.
 */
module LotPipeline {
  import opened Wrappers
  import opened Text
  import opened PhasePayload
  import opened PhaseCallbacks
  import Interleave

  type TaskId = nat

  datatype Kind = BackupBulk | BackupReprocess

  datatype Stage =
    | AwaitDirect(jump: seq<PhaseGroup>, vpn: seq<PhaseGroup>, waits: set<TaskId>)
    | AwaitJump(vpn: seq<PhaseGroup>, waits: set<TaskId>)
    | Launched(ids: seq<TaskId>)   // VPN groups launched, their ids not yet written to the lot
    | Over
    | Halted                       // a stop request kept the pending phases from being enqueued

  /** child_task_ids, total_tasks, the pending phases and the tasks launched so far. */
  datatype Phases = Phases(children: seq<TaskId>, total: int, stage: Stage, live: set<TaskId>, nextId: TaskId)

  /** completed, cancel_requested, force_cancelled_child_ids and the task counters of the lot's meta. */
  datatype View = View(declared: bool, cancelled: bool, forced: set<TaskId>, done: int, ok: int, bad: int)

  /** One call of _maybe_finalize_bulk_and_schedule_followup, made by a task that ended. */
  datatype Check =
    | Fresh
    | Looking(ids: seq<TaskId>, at: nat, completed: bool, cancelled: bool)
    | Wrote
    | Ready(cancelled: bool)
    | Won
    | Closed

  /** One request of bulk_task_status: what it read of the lot, until it has written its refresh. */
  datatype Poll =
    | Reading(children: seq<TaskId>, total: int, view: View)
    | Shown

  datatype Lot = Lot(
    kind: Kind,
    phases: Phases,
    view: View,
    good: set<TaskId>,       // tasks that ended well
    bad: set<TaskId>,        // tasks that failed or were revoked
    unheard: set<TaskId>,    // those of them that left no result for a check to read
    checks: seq<Check>,
    polls: seq<Poll>,
    decided: bool,           // the follow-up decision key
    followUps: nat,
    halt: bool,              // the global stop
    asked: bool,             // history: the lot was ever cancelled or stopped
    checked: bool            // history: some check ever found every task of the lot ended
  )

  function Done(l: Lot): set<TaskId> {
    l.good + l.bad
  }

  // ---------------------------------------------------------------- the steps

  function FreshIds(nextId: TaskId, n: nat): seq<TaskId> {
    seq(n, i requires 0 <= i < n => nextId + i)
  }

  function TaskSet(ids: seq<TaskId>): set<TaskId> {
    set id | id in ids
  }

  /** list(dict.fromkeys(ids)) */
  function KeepFirst(ids: seq<TaskId>): seq<TaskId> {
    if ids == [] then []
    else
      var k := |ids| - 1;
      var before := KeepFirst(ids[..k]);
      if ids[k] in before then before else before + [ids[k]]
  }

  function AtLeast(total: int, expected: int): int {
    if total < expected then expected else total
  }

  /** enqueue_vpn_groups_after_direct_phase_task up to its launches. */
  function StartVpn(p: Phases, vpn: seq<PhaseGroup>, stopping: bool): Phases {
    if vpn == [] then p.(stage := Over)
    else if stopping then p.(stage := Halted)
    else
      var ids := FreshIds(p.nextId, |VpnLaunches(vpn)|);
      p.(stage := Launched(ids), live := p.live + TaskSet(ids), nextId := p.nextId + |ids|)
  }

  /** The rest of it: the lot's children and total are written. */
  function WriteVpn(p: Phases, ids: seq<TaskId>): Phases {
    var merged := KeepFirst(p.children + ids);
    p.(children := merged, total := AtLeast(p.total, |merged|), stage := Over)
  }

  /** enqueue_jump_and_vpn_after_direct_phase_task: children and total are written before the tasks are launched. */
  function StartJump(p: Phases, jump: seq<PhaseGroup>, vpn: seq<PhaseGroup>, stopping: bool): Phases {
    if jump == [] then StartVpn(p, vpn, stopping)
    else if stopping then p.(stage := Halted)
    else
      var ids := FreshIds(p.nextId, |JumpEntries(jump)|);
      if ids == [] then (if vpn != [] then StartVpn(p, vpn, stopping) else p.(stage := Over))
      else
        var merged := KeepFirst(p.children + ids);
        var tasks := TaskSet(ids);
        Phases(merged, AtLeast(p.total, |merged| + |vpn|), if vpn != [] then AwaitJump(vpn, tasks) else Over,
               p.live + tasks, p.nextId + |ids|)
  }

  /** How many of these tasks lie in the set. */
  function Among(ids: seq<TaskId>, tasks: set<TaskId>): nat {
    |TaskSet(ids) * tasks|
  }

  /** The snapshot a check writes once every child has ended; a child counts as failed only if its result says so. */
  function Snapshot(v: View, ids: seq<TaskId>, good: set<TaskId>): View {
    v.(declared := true, done := |ids|, ok := Among(ids, good), bad := |ids| - Among(ids, good))
  }

  function CheckAfter(l: Lot, c: Check, enabled: bool): Check {
    match c
    case Fresh =>
      var ids := l.phases.children;
      var total := AtLeast(l.phases.total, |ids|);
      if total <= 0 || |ids| < total then Closed else Looking(ids, 0, l.view.declared, l.view.cancelled)
    case Looking(ids, at, completed, cancelled) =>
      if at < |ids| then (if ids[at] in Done(l) then Looking(ids, at + 1, completed, cancelled) else Closed)
      else if completed then Ready(cancelled)
      else Wrote
    case Wrote => Ready(l.view.cancelled)
    case Ready(cancelled) => if l.kind != BackupBulk || !enabled || cancelled || l.decided then Closed else Won
    case Won => Closed
    case Closed => Closed
  }

  /** The next step of a finalisation check. */
  function CheckNext(l: Lot, k: nat, enabled: bool, candidates: bool): Lot
    requires k < |l.checks|
  {
    var c := l.checks[k];
    var next := CheckAfter(l, c, enabled);
    var sawAll := c.Looking? && c.at >= |c.ids|;
    l.(checks := l.checks[k := next],
       checked := l.checked || sawAll,
       view := if sawAll && !c.completed then Snapshot(l.view, c.ids, l.good + l.unheard) else l.view,
       decided := l.decided || next.Won?,
       followUps := l.followUps + if c.Won? && candidates then 1 else 0)
  }

  function Max(a: int, b: int): int {
    if a >= b then a else b
  }

  /** The children a refresh may report failed: the failed ones, and on a cancelled lot those it forced to an end. */
  function MayReportBad(l: Lot, p: Poll): set<TaskId>
    requires p.Reading?
  {
    var children := TaskSet(p.children);
    children * l.bad
    + if !p.view.cancelled then {} else if p.view.forced == {} then children else children * p.view.forced
  }

  /** _refresh_bulk_task_meta, from the tasks it saw ended: no counter falls below what the request read. */
  function Refreshed(now: View, read: View, total: int, okSeen: nat, badSeen: nat): View {
    var ok, bad := Max(okSeen, read.ok), Max(badSeen, read.bad);
    var done := Max(Max(okSeen + badSeen, read.done), ok + bad);
    now.(declared := total <= 0 || read.declared || done >= total, cancelled := read.cancelled,
         done := done, ok := ok, bad := bad)
  }

  function PollTotal(p: Poll): int
    requires p.Reading?
  {
    AtLeast(if p.total == 0 then |p.children| else p.total, p.total)
  }

  datatype Event =
    | Finish(id: TaskId, ok: bool, heard: bool)
    | Return(id: TaskId)
    | Retry(id: TaskId)
    | Vanish(id: TaskId)
    | DirectDone
    | JumpDone
    | Write
    | Advance(k: nat, enabled: bool, candidates: bool)
    | SetHalt(on: bool)
    | Cancel(forced: set<TaskId>)
    | StopAll
    | PollRead
    | PollWrite(k: nat, okSeen: set<TaskId>, badSeen: set<TaskId>)

  /**
   * A task that ends or asks to be tried again makes a check; one that is revoked or killed makes none. An error that
   * a task only returns is stored after the task's own check. A chord's
   * callback runs once all its members have ended. A refresh may miss tasks that ended, but reports none as ended well
   * that did not.
   */
  predicate Enabled(l: Lot, e: Event) {
    var stage := l.phases.stage;
    match e
    case Finish(id, ok, heard) => id in l.phases.live && id !in Done(l)
    case Return(id) => id in l.unheard
    case Retry(id) => id in l.phases.live && id !in Done(l)
    case Vanish(id) => id in l.phases.live && id !in Done(l)
    case DirectDone => stage.AwaitDirect? && stage.waits <= Done(l)
    case JumpDone => stage.AwaitJump? && stage.waits <= Done(l)
    case Write => stage.Launched?
    case Advance(k, enabled, candidates) => k < |l.checks|
    case SetHalt(on) => true
    case Cancel(forced) => forced <= TaskSet(l.phases.children)
    case StopAll => true
    case PollRead => !l.view.declared
    case PollWrite(k, okSeen, badSeen) =>
      && k < |l.polls| && l.polls[k].Reading? && okSeen !! badSeen
      && okSeen <= TaskSet(l.polls[k].children) * l.good && badSeen <= MayReportBad(l, l.polls[k])
  }

  predicate IsPhaseStep(e: Event) {
    e.DirectDone? || e.JumpDone? || e.Write?
  }

  function PhasesAfter(l: Lot, e: Event): Phases
    requires Enabled(l, e) && IsPhaseStep(e)
  {
    var p, stopping := l.phases, l.halt || l.view.cancelled;
    match e
    case DirectDone => StartJump(p, p.stage.jump, p.stage.vpn, stopping)
    case JumpDone => StartVpn(p, p.stage.vpn, stopping)
    case Write => WriteVpn(p, p.stage.ids)
  }

  /** The refresh is written over whatever happened since it read the lot. */
  function WritePoll(l: Lot, k: nat, okSeen: nat, badSeen: nat): Lot
    requires k < |l.polls| && l.polls[k].Reading?
  {
    var p := l.polls[k];
    l.(phases := l.phases.(total := PollTotal(p)), polls := l.polls[k := Shown],
       view := Refreshed(l.view, p.view, PollTotal(p), okSeen, badSeen))
  }

  function Apply(l: Lot, e: Event): Lot
    requires Enabled(l, e)
  {
    match e
    case Finish(id, ok, heard) =>
      var m := l.(checks := l.checks + [Fresh]);
      if ok then m.(good := l.good + {id})
      else m.(bad := l.bad + {id}, unheard := if heard then l.unheard else l.unheard + {id})
    case Return(id) => l.(unheard := l.unheard - {id})
    case Retry(id) => l.(checks := l.checks + [Fresh])
    case Vanish(id) => l.(bad := l.bad + {id}, unheard := l.unheard + {id})
    case Advance(k, enabled, candidates) => CheckNext(l, k, enabled, candidates)
    case SetHalt(on) => l.(halt := on)
    case Cancel(forced) =>
      l.(view := l.view.(declared := false, cancelled := true, forced := forced), halt := true, asked := true)
    case StopAll =>
      if l.view.declared then l.(halt := true)
      else l.(view := l.view.(declared := true, cancelled := true), halt := true, asked := true)
    case PollRead => l.(polls := l.polls + [Reading(l.phases.children, l.phases.total, l.view)])
    case PollWrite(k, okSeen, badSeen) => WritePoll(l, k, |okSeen|, |badSeen|)
    case _ => l.(phases := PhasesAfter(l, e))
  }

  predicate IsRun(l: Lot, events: seq<Event>)
    decreases |events|
  {
    events == [] || (Enabled(l, events[0]) && IsRun(Apply(l, events[0]), events[1..]))
  }

  function EndOf(l: Lot, events: seq<Event>): Lot
    requires IsRun(l, events)
    decreases |events|
  {
    if events == [] then l else EndOf(Apply(l, events[0]), events[1..])
  }

  // ---------------------------------------------------------------- the plan

  function NewLot(kind: Kind, children: seq<TaskId>, total: int, stage: Stage): Lot {
    Lot(kind, Phases(children, total, stage, TaskSet(children), |children|), View(false, false, {}, 0, 0, 0),
        {}, {}, {}, [], [], false, 0, false, false, false)
  }

  /** The written plan: one child per direct group and per device without a group, the rest deferred. */
  function WrittenLot(kind: Kind, directGroups: nat, alone: nat, jump: seq<PhaseGroup>, vpn: seq<PhaseGroup>): Lot {
    var children := FreshIds(0, directGroups + alone);
    var deferred := jump != [] || vpn != [];
    NewLot(kind, children, |children| + (if deferred then |AllIds(jump)| + |vpn| else 0),
           if deferred then AwaitDirect(jump, vpn, TaskSet(children)) else Over)
  }

  function PlannedLot(kind: Kind, targets: seq<Target>): Lot {
    WrittenLot(kind, |Payload(OnRoute(targets, ByGroup))|, |OnRoute(targets, Alone)|,
               Payload(OnRoute(targets, ByJump)), Payload(OnRoute(targets, ByVpn)))
  }

  function QueuedDevices(payload: seq<PhaseGroup>): nat {
    if payload == [] then 0
    else QueuedDevices(payload[..|payload| - 1]) + |payload[|payload| - 1].deviceIds|
  }

  lemma {:induction false} QueuedIsAllIds(payload: seq<PhaseGroup>)
    ensures QueuedDevices(payload) == |AllIds(payload)|
    decreases |payload|
  {
    if payload != [] {
      QueuedIsAllIds(payload[..|payload| - 1]);
    }
  }

  /** One more child per signature. */
  method AppendIds(ids0: seq<TaskId>, n: nat) returns (ids: seq<TaskId>)
    requires ids0 == FreshIds(0, |ids0|)
    ensures ids == FreshIds(0, |ids0| + n)
  {
    ids := ids0;
    for i := 0 to n
      invariant ids == FreshIds(0, |ids0| + i)
    {
      ids := ids + [|ids|];
    }
  }

  method WritePlan(kind: Kind, direct: seq<PhaseGroup>, alone: seq<Target>, jump: seq<PhaseGroup>, vpn: seq<PhaseGroup>)
    returns (lot: Lot)
    ensures lot == WrittenLot(kind, |direct|, |alone|, jump, vpn)
  {
    var queuedJump := QueuedDevices(jump);
    QueuedIsAllIds(jump);
    var children := AppendIds([], |direct|);
    children := AppendIds(children, |alone|);
    var phasedDeferred := jump != [] || vpn != [];
    var total := |children| + (if phasedDeferred then queuedJump + |vpn| else 0);
    lot := NewLot(kind, children, total, if phasedDeferred then AwaitDirect(jump, vpn, TaskSet(children)) else Over);
  }

  /** The planner; it writes no plan when no device is left. */
  method PlanLot(kind: Kind, targets: seq<Target>) returns (lot: Option<Lot>)
    ensures lot == if targets == [] then None else Some(PlannedLot(kind, targets))
  {
    if targets == [] {
      return None;
    }
    var vpnTargets, jumpTargets, directTargets, alone := SplitByRoute(targets);
    var direct := BuildPayload(directTargets, true);
    var jump := BuildPayload(jumpTargets, true);
    var vpn := BuildPayload(vpnTargets, true);
    var planned := WritePlan(kind, direct, alone, jump, vpn);
    lot := Some(planned);
  }

  /**
   * What the planner writes, by group and effective mode: each group's JumpHost devices are deferred to the Jump Host
   * phase and its Vpn devices to the VPN phase, one entry per group; the first phase has one task for each group with
   * other devices and one for each device without a group; the total adds a task per JumpHost device and VPN group.
   */
  lemma PlanExactly(kind: Kind, targets: seq<Target>)
    ensures PlanFits(PlannedLot(kind, targets).phases, targets)
  {
    forall t ensures RouteOf(t) == ByGroup <==> WantsNeither(t) {
      RouteExactly(t);
    }
    PayloadDefers(targets, ByGroup, WantsNeither, true);
    PayloadDefers(targets, ByJump, WantsJump, true);
    PayloadDefers(targets, ByVpn, WantsVpn, true);
    AloneSize(targets);
    PhasesFit(kind, targets, |Payload(OnRoute(targets, ByGroup))|, |OnRoute(targets, Alone)|,
              Payload(OnRoute(targets, ByJump)), Payload(OnRoute(targets, ByVpn)));
  }

  ghost predicate PlanFits(p: Phases, targets: seq<Target>) {
    && |p.children| == |GroupIds(targets, WantsNeither)| + Groupless(targets)
    && (p.stage.AwaitDirect? <==> exists t | t in targets :: WantsJump(t) || WantsVpn(t))
    && (!p.stage.AwaitDirect? ==> p.stage.Over? && p.total == |p.children|)
    && (p.stage.AwaitDirect? ==>
          && Defers(p.stage.jump, targets, WantsJump, true) && Defers(p.stage.vpn, targets, WantsVpn, true)
          && p.stage.waits == TaskSet(p.children)
          && p.total == |p.children| + |AllIds(p.stage.jump)| + |GroupIds(targets, WantsVpn)|)
  }

  lemma PhasesFit(kind: Kind, targets: seq<Target>, groups: nat, alone: nat, jump: seq<PhaseGroup>,
                  vpn: seq<PhaseGroup>)
    requires groups == |GroupIds(targets, WantsNeither)| && alone == Groupless(targets)
    requires Defers(jump, targets, WantsJump, true) && Defers(vpn, targets, WantsVpn, true)
    ensures PlanFits(WrittenLot(kind, groups, alone, jump, vpn).phases, targets)
  {
    NoGroups(jump, targets, WantsJump);
    NoGroups(vpn, targets, WantsVpn);
    PhasesOf(kind, groups, alone, jump, vpn);
  }

  lemma PhasesOf(kind: Kind, groups: nat, alone: nat, jump: seq<PhaseGroup>, vpn: seq<PhaseGroup>)
    ensures var p := WrittenLot(kind, groups, alone, jump, vpn).phases;
            && |p.children| == groups + alone
            && (if jump != [] || vpn != []
                then && p.stage == AwaitDirect(jump, vpn, TaskSet(p.children))
                     && p.total == |p.children| + |AllIds(jump)| + |vpn|
                else p.stage.Over? && p.total == |p.children|)
  {
  }

  lemma NoGroups(payload: seq<PhaseGroup>, targets: seq<Target>, wants: Target -> bool)
    requires Defers(payload, targets, wants, true)
    ensures payload != [] <==> exists t | t in targets :: wants(t)
  {
    if payload != [] {
      assert payload[0] in payload && IsOfSome(payload[0], targets, wants, true);
    }
    forall t | t in targets && wants(t) ensures payload != [] {
      assert HasEntry(payload, targets, wants, GroupKey(t), true);
    }
  }

  // ---------------------------------------------------------------- counting tasks

  /** What the plan still counts for the phases that are not enqueued yet. */
  function Pending(stage: Stage): nat {
    match stage
    case AwaitDirect(jump, vpn, waits) => |AllIds(jump)| + |vpn|
    case AwaitJump(vpn, waits) => |vpn|
    case Launched(ids) => |ids|
    case Over => 0
    case Halted => 0
  }

  /** The tasks these phases will really add. */
  function Coming(stage: Stage): nat {
    match stage
    case AwaitDirect(jump, vpn, waits) => |JumpEntries(jump)| + |VpnLaunches(vpn)|
    case AwaitJump(vpn, waits) => |VpnLaunches(vpn)|
    case Launched(ids) => |ids|
    case Over => 0
    case Halted => 0
  }

  /** The tasks launched so far: the lot's children, then VPN tasks not yet written to it. */
  function Tasks(p: Phases): seq<TaskId> {
    if p.stage.Launched? then p.children + p.stage.ids else p.children
  }

  /** Task ids are used once, and only these tasks were launched. */
  ghost predicate Known(ids: seq<TaskId>, nextId: TaskId, live: set<TaskId>) {
    NoDup(ids) && (forall id | id in ids :: id < nextId) && live == TaskSet(ids)
  }

  ghost predicate Sound(p: Phases) {
    Known(Tasks(p), p.nextId, p.live) && |p.children| + Pending(p.stage) <= p.total
  }

  /** A lot as a planner writes it, whatever its payloads. */
  ghost predicate Written(l: Lot) {
    && Known(l.phases.children, l.phases.nextId, l.phases.live)
    && (l.phases.stage.Over? || (l.phases.stage.AwaitDirect? && l.phases.stage.waits == l.phases.live))
    && l.phases.total == |l.phases.children| + Pending(l.phases.stage)
    && l.view == View(false, false, {}, 0, 0, 0) && Done(l) == {} && l.unheard == {} && l.checks == [] && l.polls == []
    && !l.decided && l.followUps == 0 && !l.asked && !l.checked
  }

  /** No phase is pending and no task is running. */
  ghost predicate Settled(l: Lot) {
    Pending(l.phases.stage) == 0 && l.phases.live <= Done(l)
  }

  ghost predicate CheckSound(l: Lot, c: Check) {
    match c
    case Fresh => true
    case Looking(ids, at, completed, cancelled) =>
      && ids == l.phases.children && at <= |ids| && Pending(l.phases.stage) == 0
      && (forall i | 0 <= i < at :: ids[i] in Done(l))
      && (cancelled ==> l.asked)
    case Wrote => l.checked
    case Ready(cancelled) => l.checked && (cancelled ==> l.asked)
    case Won => l.checked && l.decided && l.kind == BackupBulk && l.followUps == 0
    case Closed => true
  }

  ghost predicate ChecksSound(l: Lot) {
    && (forall k | 0 <= k < |l.checks| :: CheckSound(l, l.checks[k]))
    && (forall j, k | 0 <= j < |l.checks| && 0 <= k < |l.checks| && l.checks[j].Won? && l.checks[k].Won? :: j == k)
  }

  ghost predicate FlagsSound(l: Lot) {
    && (l.checked ==> Settled(l))
    && (l.decided ==> l.checked && l.kind == BackupBulk)
    && (!l.decided ==> l.followUps == 0)
    && l.followUps <= 1
  }

  ghost predicate Bounded(v: View, good: nat, bad: nat) {
    v.ok <= good && v.bad <= bad && v.done <= good + bad
  }

  /** Until the lot is cancelled or a check has found it ended, its counters claim no more than what has ended. */
  ghost predicate CountersSound(l: Lot, v: View) {
    && (v.cancelled ==> l.asked)
    && (!l.asked && !l.checked ==> Bounded(v, Among(l.phases.children, l.good), Among(l.phases.children, l.bad)))
  }

  ghost predicate ViewSound(l: Lot) {
    CountersSound(l, l.view) && (l.view.declared && !l.asked ==> Settled(l))
  }

  ghost predicate PollSound(l: Lot, p: Poll) {
    p.Reading? ==>
      && TaskSet(p.children) <= TaskSet(l.phases.children) && p.total == l.phases.total
      && !p.view.declared && CountersSound(l, p.view)
  }

  ghost predicate PollsSound(l: Lot) {
    forall k | 0 <= k < |l.polls| :: PollSound(l, l.polls[k])
  }

  ghost predicate TasksSound(l: Lot) {
    Sound(l.phases) && l.good !! l.bad && Done(l) <= l.phases.live && l.unheard <= l.bad
  }

  ghost predicate Inv(l: Lot) {
    TasksSound(l) && ChecksSound(l) && FlagsSound(l) && ViewSound(l) && PollsSound(l)
  }

  /** What no step undoes; once nothing is pending the tasks stay, and unless halted the tasks to come are launched. */
  ghost predicate Carried(l: Lot, m: Lot) {
    && m.kind == l.kind && m.phases.total == l.phases.total
    && TaskSet(l.phases.children) <= TaskSet(m.phases.children) && l.good <= m.good && l.bad <= m.bad
    && (l.asked ==> m.asked) && (l.checked ==> m.checked) && (l.decided ==> m.decided)
    && (Pending(l.phases.stage) == 0 ==>
          && Pending(m.phases.stage) == 0
          && m.phases.children == l.phases.children && m.phases.live == l.phases.live)
    && (!m.phases.stage.Halted? ==>
          && !l.phases.stage.Halted?
          && |m.phases.children| + Coming(m.phases.stage) == |l.phases.children| + Coming(l.phases.stage))
  }

  // ---------------------------------------------------------------- task ids

  lemma {:induction false} FreshShape(nextId: TaskId, n: nat)
    ensures NoDup(FreshIds(nextId, n))
    ensures forall id :: id in FreshIds(nextId, n) <==> nextId <= id < nextId + n
    decreases n
  {
    var ids := FreshIds(nextId, n);
    if n > 0 {
      FreshShape(nextId, n - 1);
      assert ids[..n - 1] == FreshIds(nextId, n - 1);
    }
    forall id | nextId <= id < nextId + n ensures id in ids {
      assert ids[id - nextId] == id;
    }
  }

  lemma {:induction false} KeepFirstAll(ids: seq<TaskId>)
    requires NoDup(ids)
    ensures KeepFirst(ids) == ids
    decreases |ids|
  {
    if ids != [] {
      KeepFirstAll(ids[..|ids| - 1]);
    }
  }

  /** Fresh ids after the known ones. */
  lemma AppendFresh(known: seq<TaskId>, nextId: TaskId, live: set<TaskId>, n: nat)
    requires Known(known, nextId, live)
    ensures var added := FreshIds(nextId, n);
            Known(known + added, nextId + n, live + TaskSet(added)) && KeepFirst(known + added) == known + added
  {
    FreshShape(nextId, n);
    NoDupConcat(known, FreshIds(nextId, n));
    KeepFirstAll(known + FreshIds(nextId, n));
  }

  lemma StartVpnKeeps(p: Phases, vpn: seq<PhaseGroup>, stopping: bool)
    requires Known(p.children, p.nextId, p.live) && |p.children| + |vpn| <= p.total
    ensures var q := StartVpn(p, vpn, stopping);
            && Sound(q) && q.total == p.total && q.children == p.children && p.live <= q.live
            && (!q.stage.Halted? ==> Coming(q.stage) == |VpnLaunches(vpn)|)
            && (vpn == [] ==> Pending(q.stage) == 0 && q.live == p.live)
  {
    if vpn != [] && !stopping {
      VpnLaunchesSize(vpn);
      AppendFresh(p.children, p.nextId, p.live, |VpnLaunches(vpn)|);
    }
  }

  lemma WriteVpnKeeps(p: Phases, ids: seq<TaskId>)
    requires Sound(p) && p.stage == Launched(ids)
    ensures var q := WriteVpn(p, ids);
            Sound(q) && q.total == p.total && q.live == p.live && q.children == p.children + ids
  {
    KeepFirstAll(p.children + ids);
  }

  lemma StartJumpKeeps(p: Phases, jump: seq<PhaseGroup>, vpn: seq<PhaseGroup>, stopping: bool)
    requires Known(p.children, p.nextId, p.live) && |p.children| + |AllIds(jump)| + |vpn| <= p.total
    ensures var q := StartJump(p, jump, vpn, stopping);
            && Sound(q) && q.total == p.total && p.live <= q.live
            && (!q.stage.Halted? ==>
                  |q.children| + Coming(q.stage) == |p.children| + |JumpEntries(jump)| + |VpnLaunches(vpn)|)
            && (AllIds(jump) == [] && vpn == [] ==>
                  Pending(q.stage) == 0 && q.children == p.children && q.live == p.live)
  {
    JumpEntriesSize(jump);
    if jump == [] || JumpEntries(jump) == [] {
      StartVpnKeeps(p, vpn, stopping);
    } else if !stopping {
      AppendFresh(p.children, p.nextId, p.live, |JumpEntries(jump)|);
    }
  }

  /** A callback keeps the total and loses no task, and once nothing is pending it changes nothing. */
  lemma PhasesKept(l: Lot, e: Event)
    requires Enabled(l, e) && IsPhaseStep(e) && Sound(l.phases)
    ensures var p, q := l.phases, PhasesAfter(l, e);
            && Sound(q) && q.total == p.total && p.live <= q.live && TaskSet(p.children) <= TaskSet(q.children)
            && (!q.stage.Halted? ==> |q.children| + Coming(q.stage) == |p.children| + Coming(p.stage))
            && (Pending(p.stage) == 0 ==> Pending(q.stage) == 0 && q.children == p.children && q.live == p.live)
  {
    var p, stopping := l.phases, l.halt || l.view.cancelled;
    match e
    case DirectDone => StartJumpKeeps(p, p.stage.jump, p.stage.vpn, stopping);
    case JumpDone => StartVpnKeeps(p, p.stage.vpn, stopping);
    case Write => WriteVpnKeeps(p, p.stage.ids);
  }

  // ---------------------------------------------------------------- counting children

  lemma AmongGrows(ids: seq<TaskId>, more: seq<TaskId>, tasks: set<TaskId>, later: set<TaskId>)
    requires TaskSet(ids) <= TaskSet(more) && tasks <= later
    ensures Among(ids, tasks) <= Among(more, later)
  {
    SubsetSize(TaskSet(ids) * tasks, TaskSet(more) * later);
  }

  lemma {:induction false} SubsetSize(a: set<TaskId>, b: set<TaskId>)
    requires a <= b
    ensures |a| <= |b| && (|a| == |b| ==> a == b)
    decreases |a|
  {
    if x :| x in a {
      SubsetSize(a - {x}, b - {x});
      assert a == (a - {x}) + {x} && b == (b - {x}) + {x};
    }
  }

  lemma {:induction false} DistinctSize(ids: seq<TaskId>)
    requires NoDup(ids)
    ensures |TaskSet(ids)| == |ids|
    decreases |ids|
  {
    if ids != [] {
      var k := |ids| - 1;
      DistinctSize(ids[..k]);
      assert TaskSet(ids) == TaskSet(ids[..k]) + {ids[k]};
      assert ids[k] !in ids[..k];
    }
  }

  /** The children split into those that ended well, those that ended badly, and the others. */
  lemma CountSplit(ids: seq<TaskId>, good: set<TaskId>, bad: set<TaskId>)
    requires NoDup(ids) && good !! bad
    ensures Among(ids, good) + Among(ids, bad) <= |ids|
    ensures Among(ids, good) + Among(ids, bad) == |ids| <==> TaskSet(ids) <= good + bad
  {
    var all := TaskSet(ids);
    DistinctSize(ids);
    SplitSize(all, good, bad);
    SubsetSize(all * (good + bad), all);
    assert all <= good + bad <==> all * (good + bad) == all;
  }

  lemma SplitSize(all: set<TaskId>, good: set<TaskId>, bad: set<TaskId>)
    requires good !! bad
    ensures |all * good| + |all * bad| == |all * (good + bad)|
  {
    assert all * (good + bad) == all * good + all * bad;
    assert (all * good) !! (all * bad);
  }


  lemma DistinctChildren(p: Phases)
    requires Sound(p)
    ensures NoDup(p.children) && |TaskSet(p.children)| == |p.children|
  {
    NoDupConcat(p.children, Tasks(p)[|p.children|..]);
    assert Tasks(p) == p.children + Tasks(p)[|p.children|..];
    DistinctSize(p.children);
  }

  /** A snapshot of ended children counts the failures exactly when none of them left its result unheard. */
  lemma SnapshotCountsFailures(l: Lot, ids: seq<TaskId>)
    requires TasksSound(l) && NoDup(ids) && TaskSet(ids) <= Done(l)
    ensures var v := Snapshot(l.view, ids, l.good + l.unheard);
            && v.bad <= Among(ids, l.bad) && v.ok + v.bad == v.done == |ids|
            && (v.bad == Among(ids, l.bad) <==> TaskSet(ids) !! l.unheard)
  {
    CountSplit(ids, l.good, l.bad);
    SplitSize(TaskSet(ids), l.good, l.unheard);
    if TaskSet(ids) * l.unheard == {} {
      assert |TaskSet(ids) * l.unheard| == 0;
    }
  }

  // ---------------------------------------------------------------- what later steps leave sound

  lemma CarriedOn(a: Lot, b: Lot, c: Lot)
    requires Carried(a, b) && Carried(b, c)
    ensures Carried(a, c)
  {
  }

  lemma CheckStaysSound(l: Lot, m: Lot, c: Check)
    requires Carried(l, m) && CheckSound(l, c)
    requires c.Won? ==> m.followUps == l.followUps
    ensures CheckSound(m, c)
  {
  }

  lemma BoundedOn(l: Lot, m: Lot, v: View)
    requires Carried(l, m) && CountersSound(l, v)
    ensures CountersSound(m, v)
  {
    AmongGrows(l.phases.children, m.phases.children, l.good, m.good);
    AmongGrows(l.phases.children, m.phases.children, l.bad, m.bad);
  }

  lemma PollsStaySound(l: Lot, m: Lot)
    requires Carried(l, m) && PollsSound(l) && m.polls == l.polls
    ensures PollsSound(m)
  {
    forall k | 0 <= k < |m.polls| ensures PollSound(m, m.polls[k]) {
      assert PollSound(l, l.polls[k]);
      if l.polls[k].Reading? {
        BoundedOn(l, m, l.polls[k].view);
      }
    }
  }

  lemma ViewStaysSound(l: Lot, m: Lot)
    requires Carried(l, m) && ViewSound(l) && m.view == l.view
    ensures ViewSound(m)
  {
    BoundedOn(l, m, l.view);
  }

  lemma ChecksStaySound(l: Lot, m: Lot)
    requires Carried(l, m) && ChecksSound(l) && m.followUps == l.followUps
    requires m.checks == l.checks || m.checks == l.checks + [Fresh]
    ensures ChecksSound(m)
  {
    forall k | 0 <= k < |l.checks| ensures CheckSound(m, l.checks[k]) {
      CheckStaysSound(l, m, l.checks[k]);
    }
  }

  lemma FlagsStaySound(l: Lot, m: Lot)
    requires Carried(l, m) && FlagsSound(l)
    requires m.checked == l.checked && m.decided == l.decided && m.followUps == l.followUps
    ensures FlagsSound(m)
  {
  }

  // ---------------------------------------------------------------- the steps keep the invariant

  lemma PhaseStepKept(l: Lot, e: Event)
    requires Inv(l) && Enabled(l, e) && IsPhaseStep(e)
    ensures Inv(Apply(l, e)) && Carried(l, Apply(l, e))
  {
    var m := Apply(l, e);
    PhasesKept(l, e);
    UnhaltedBefore(l, e);
    ChecksStaySound(l, m);
    FlagsStaySound(l, m);
    ViewStaysSound(l, m);
    PollsStaySound(l, m);
  }

  lemma UnhaltedBefore(l: Lot, e: Event)
    requires Enabled(l, e) && IsPhaseStep(e)
    ensures !l.phases.stage.Halted?
  {
  }

  lemma MoreEnded(l: Lot, good: set<TaskId>, bad: set<TaskId>, unheard: set<TaskId>, checks: seq<Check>)
    requires Inv(l) && l.good <= good && l.bad <= bad && good !! bad && good + bad <= l.phases.live
    requires unheard <= bad
    requires checks == l.checks || checks == l.checks + [Fresh]
    ensures var m := l.(good := good, bad := bad, unheard := unheard, checks := checks); Inv(m) && Carried(l, m)
  {
    var m := l.(good := good, bad := bad, unheard := unheard, checks := checks);
    ChecksStaySound(l, m);
    FlagsStaySound(l, m);
    ViewStaysSound(l, m);
    PollsStaySound(l, m);
  }

  lemma TaskStepKept(l: Lot, e: Event)
    requires Inv(l) && Enabled(l, e) && (e.Finish? || e.Return? || e.Retry? || e.Vanish?)
    ensures Inv(Apply(l, e)) && Carried(l, Apply(l, e))
  {
    match e
    case Finish(id, ok, heard) =>
      if ok {
        MoreEnded(l, l.good + {id}, l.bad, l.unheard, l.checks + [Fresh]);
      } else {
        MoreEnded(l, l.good, l.bad + {id}, if heard then l.unheard else l.unheard + {id}, l.checks + [Fresh]);
      }
    case Return(id) => MoreEnded(l, l.good, l.bad, l.unheard - {id}, l.checks);
    case Retry(id) => MoreEnded(l, l.good, l.bad, l.unheard, l.checks + [Fresh]);
    case Vanish(id) => MoreEnded(l, l.good, l.bad + {id}, l.unheard + {id}, l.checks);
  }

  lemma HaltStepKept(l: Lot, on: bool)
    requires Inv(l)
    ensures Inv(l.(halt := on)) && Carried(l, l.(halt := on))
  {
    var m := l.(halt := on);
    ChecksStaySound(l, m);
    FlagsStaySound(l, m);
    ViewStaysSound(l, m);
    PollsStaySound(l, m);
  }

  lemma CancelStepKept(l: Lot, forced: set<TaskId>)
    requires Inv(l) && Enabled(l, Cancel(forced))
    ensures Inv(Apply(l, Cancel(forced))) && Carried(l, Apply(l, Cancel(forced)))
  {
    var m := Apply(l, Cancel(forced));
    ChecksStaySound(l, m);
    FlagsStaySound(l, m);
    PollsStaySound(l, m);
  }

  lemma StopAllKept(l: Lot)
    requires Inv(l)
    ensures Inv(Apply(l, StopAll)) && Carried(l, Apply(l, StopAll))
  {
    var m := Apply(l, StopAll);
    ChecksStaySound(l, m);
    FlagsStaySound(l, m);
    PollsStaySound(l, m);
    if l.view.declared {
      ViewStaysSound(l, m);
    }
  }

  lemma PollReadKept(l: Lot)
    requires Inv(l) && Enabled(l, PollRead)
    ensures Inv(Apply(l, PollRead)) && Carried(l, Apply(l, PollRead))
  {
    var m := Apply(l, PollRead);
    ChecksStaySound(l, m);
    FlagsStaySound(l, m);
    ViewStaysSound(l, m);
    forall k | 0 <= k < |m.polls| ensures PollSound(m, m.polls[k]) {
      if k < |l.polls| {
        assert PollSound(l, l.polls[k]);
        assert m.polls[k] == l.polls[k];
        if l.polls[k].Reading? {
          BoundedOn(l, m, l.polls[k].view);
        }
      }
    }
  }

  /** Counters within what has ended stay so when a refresh adds what it saw. */
  lemma RefreshBounded(now: View, read: View, total: int, okSeen: nat, badSeen: nat, good: nat, bad: nat)
    requires Bounded(read, good, bad) && okSeen <= good && badSeen <= bad && !read.declared
    ensures var v := Refreshed(now, read, total, okSeen, badSeen);
            Bounded(v, good, bad) && (v.declared ==> total <= good + bad)
  {
  }

  /** Once as many tasks have ended as the lot has to have, it has ended. */
  lemma EnoughEnded(l: Lot)
    requires TasksSound(l)
    requires l.phases.total <= Among(l.phases.children, l.good) + Among(l.phases.children, l.bad)
    ensures Settled(l)
  {
    var p := l.phases;
    DistinctChildren(p);
    CountSplit(p.children, l.good, l.bad);
    assert p.stage.Launched? ==> p.stage.ids == [];
    assert Tasks(p) == p.children;
  }

  /** What a refresh saw of a lot that nobody cancelled. */
  lemma SeenBounded(l: Lot, p: Poll, okSeen: set<TaskId>, badSeen: set<TaskId>)
    requires PollSound(l, p) && p.Reading? && !l.asked
    requires okSeen <= TaskSet(p.children) * l.good && badSeen <= MayReportBad(l, p)
    ensures |okSeen| <= Among(l.phases.children, l.good) && |badSeen| <= Among(l.phases.children, l.bad)
  {
    SubsetSize(okSeen, TaskSet(l.phases.children) * l.good);
    SubsetSize(badSeen, TaskSet(l.phases.children) * l.bad);
  }

  lemma PollWriteKept(l: Lot, k: nat, okSeen: set<TaskId>, badSeen: set<TaskId>)
    requires Inv(l) && Enabled(l, PollWrite(k, okSeen, badSeen))
    ensures Inv(Apply(l, PollWrite(k, okSeen, badSeen))) && Carried(l, Apply(l, PollWrite(k, okSeen, badSeen)))
  {
    var m, p := Apply(l, PollWrite(k, okSeen, badSeen)), l.polls[k];
    assert PollSound(l, p);
    TotalKept(l, p);
    assert m.phases == l.phases;
    ChecksStaySound(l, m);
    FlagsStaySound(l, m);
    PollsStaySound(l, m.(polls := l.polls));
    if !l.asked && !l.checked {
      SeenBounded(l, p, okSeen, badSeen);
      RefreshBounded(l.view, p.view, l.phases.total, |okSeen|, |badSeen|, Among(l.phases.children, l.good),
                     Among(l.phases.children, l.bad));
      if m.view.declared {
        EnoughEnded(l);
      }
    }
    forall j | 0 <= j < |m.polls| ensures PollSound(m, m.polls[j]) {
      assert PollSound(m.(polls := l.polls), l.polls[j]);
    }
  }

  lemma TotalKept(l: Lot, p: Poll)
    requires Sound(l.phases) && PollSound(l, p) && p.Reading?
    ensures PollTotal(p) == l.phases.total
  {
    var q := l.phases;
    assert q.total == 0 ==> q.children == [] && TaskSet(q.children) == {};
    assert p.children != [] ==> p.children[0] in TaskSet(p.children);
  }

  // ---------------------------------------------------------------- the checks

  /** When a check has seen every child of the lot ended, no task runs and none will be launched. */
  lemma LookedAll(l: Lot, ids: seq<TaskId>, completed: bool, cancelled: bool)
    requires TasksSound(l) && CheckSound(l, Looking(ids, |ids|, completed, cancelled))
    ensures Settled(l) && Among(ids, l.good) + Among(ids, l.bad) == |ids|
  {
    var p := l.phases;
    assert p.stage.Launched? ==> p.stage.ids == [];
    assert Tasks(p) == p.children;
    assert TaskSet(ids) <= l.good + l.bad;
    CountSplit(ids, l.good, l.bad);
  }

  lemma OneCheckMoved(l: Lot, m: Lot, k: nat, c: Check)
    requires Carried(l, m) && ChecksSound(l) && k < |l.checks| && m.checks == l.checks[k := c]
    requires m.followUps == l.followUps || l.checks[k].Won?
    requires CheckSound(m, c) && (c.Won? ==> !l.decided)
    ensures ChecksSound(m)
  {
    forall j | 0 <= j < |l.checks| && j != k
      ensures CheckSound(m, l.checks[j]) && !(c.Won? && l.checks[j].Won?)
    {
      assert CheckSound(l, l.checks[j]);
      CheckStaysSound(l, m, l.checks[j]);
    }
  }

  lemma QuietAdvanceKept(l: Lot, k: nat, enabled: bool)
    requires Inv(l) && k < |l.checks|
    requires var c := l.checks[k]; c.Fresh? || c.Wrote? || c.Closed? || (c.Looking? && c.at < |c.ids|)
    ensures Inv(CheckNext(l, k, enabled, false)) && Carried(l, CheckNext(l, k, enabled, false))
  {
    var m, c := CheckNext(l, k, enabled, false), l.checks[k];
    assert CheckSound(l, c);
    assert m == l.(checks := l.checks[k := CheckAfter(l, c, enabled)]);
    NextSound(l, c, enabled);
    CheckStaysSound(l, m, m.checks[k]);
    OneCheckMoved(l, m, k, m.checks[k]);
    FlagsStaySound(l, m);
    ViewStaysSound(l, m);
    PollsStaySound(l, m);
  }

  lemma NextSound(l: Lot, c: Check, enabled: bool)
    requires |l.phases.children| + Pending(l.phases.stage) <= l.phases.total && (l.view.cancelled ==> l.asked)
    requires CheckSound(l, c)
    requires c.Fresh? || c.Wrote? || c.Closed? || (c.Looking? && c.at < |c.ids|)
    ensures CheckSound(l, CheckAfter(l, c, enabled))
  {
  }

  lemma DeclareStepKept(l: Lot, k: nat, enabled: bool)
    requires Inv(l) && k < |l.checks| && l.checks[k].Looking? && l.checks[k].at >= |l.checks[k].ids|
    ensures Inv(CheckNext(l, k, enabled, false)) && Carried(l, CheckNext(l, k, enabled, false))
  {
    var m, c := CheckNext(l, k, enabled, false), l.checks[k];
    assert CheckSound(l, c);
    LookedAll(l, c.ids, c.completed, c.cancelled);
    OneCheckMoved(l, m, k, m.checks[k]);
    PollsStaySound(l, m);
    BoundedOn(l, m, l.view);
  }

  lemma ReadyStepKept(l: Lot, k: nat, enabled: bool)
    requires Inv(l) && k < |l.checks| && l.checks[k].Ready?
    ensures Inv(CheckNext(l, k, enabled, false)) && Carried(l, CheckNext(l, k, enabled, false))
  {
    var m := CheckNext(l, k, enabled, false);
    assert CheckSound(l, l.checks[k]);
    OneCheckMoved(l, m, k, m.checks[k]);
    ViewStaysSound(l, m);
    PollsStaySound(l, m);
  }

  lemma WonStepKept(l: Lot, k: nat, enabled: bool, candidates: bool)
    requires Inv(l) && k < |l.checks| && l.checks[k].Won?
    ensures Inv(CheckNext(l, k, enabled, candidates)) && Carried(l, CheckNext(l, k, enabled, candidates))
  {
    var m := CheckNext(l, k, enabled, candidates);
    assert CheckSound(l, l.checks[k]);
    OnlyWonMoved(l, m, k);
    ViewStaysSound(l, m);
    PollsStaySound(l, m);
  }

  lemma OnlyWonMoved(l: Lot, m: Lot, k: nat)
    requires Carried(l, m) && ChecksSound(l) && k < |l.checks| && l.checks[k].Won? && m.checks == l.checks[k := Closed]
    ensures ChecksSound(m)
  {
    forall j | 0 <= j < |l.checks| && j != k ensures CheckSound(m, l.checks[j]) {
      assert CheckSound(l, l.checks[j]);
      CheckStaysSound(l, m, l.checks[j]);
    }
  }

  lemma CheckStepKept(l: Lot, k: nat, enabled: bool, candidates: bool)
    requires Inv(l) && k < |l.checks|
    ensures Inv(CheckNext(l, k, enabled, candidates)) && Carried(l, CheckNext(l, k, enabled, candidates))
  {
    var c := l.checks[k];
    if c.Won? {
      WonStepKept(l, k, enabled, candidates);
    } else if c.Ready? {
      ReadyStepKept(l, k, enabled);
    } else if c.Looking? && c.at >= |c.ids| {
      DeclareStepKept(l, k, enabled);
    } else {
      QuietAdvanceKept(l, k, enabled);
    }
  }

  lemma StepKept(l: Lot, e: Event)
    requires Inv(l) && Enabled(l, e)
    ensures Inv(Apply(l, e)) && Carried(l, Apply(l, e))
  {
    match e
    case Finish(id, ok, heard) => TaskStepKept(l, e);
    case Return(id) => TaskStepKept(l, e);
    case Retry(id) => TaskStepKept(l, e);
    case Vanish(id) => TaskStepKept(l, e);
    case Advance(k, enabled, candidates) => CheckStepKept(l, k, enabled, candidates);
    case SetHalt(on) => HaltStepKept(l, on);
    case Cancel(forced) => CancelStepKept(l, forced);
    case StopAll => StopAllKept(l);
    case PollRead => PollReadKept(l);
    case PollWrite(k, okSeen, badSeen) => PollWriteKept(l, k, okSeen, badSeen);
    case _ => PhaseStepKept(l, e);
  }

  lemma {:induction false} InvAlongRun(l: Lot, events: seq<Event>)
    requires Inv(l) && IsRun(l, events)
    ensures Inv(EndOf(l, events)) && Carried(l, EndOf(l, events))
    decreases |events|
  {
    if events != [] {
      var m := Apply(l, events[0]);
      StepKept(l, events[0]);
      InvAlongRun(m, events[1..]);
      CarriedOn(l, m, EndOf(m, events[1..]));
    }
  }

  // ---------------------------------------------------------------- the main results

  lemma WrittenInv(l: Lot)
    requires Written(l)
    ensures Inv(l)
  {
  }

  lemma WrittenLotIsWritten(kind: Kind, directGroups: nat, alone: nat, jump: seq<PhaseGroup>, vpn: seq<PhaseGroup>)
    ensures Written(WrittenLot(kind, directGroups, alone, jump, vpn))
  {
    FreshShape(0, directGroups + alone);
    assert jump == [] ==> AllIds(jump) == [];
  }

  lemma PlanIsWritten(kind: Kind, targets: seq<Target>)
    ensures Written(PlannedLot(kind, targets))
  {
    WrittenLotIsWritten(kind, |Payload(OnRoute(targets, ByGroup))|, |OnRoute(targets, Alone)|,
                        Payload(OnRoute(targets, ByJump)), Payload(OnRoute(targets, ByVpn)));
  }

  /** The children and what is not enqueued yet never exceed the planned total, which never changes. */
  lemma CountNeverExceedsTotal(l: Lot, events: seq<Event>)
    requires Written(l) && IsRun(l, events)
    ensures var m := EndOf(l, events);
            && |m.phases.children| + Pending(m.phases.stage) <= m.phases.total
            && m.phases.total == l.phases.total
  {
    WrittenInv(l);
    InvAlongRun(l, events);
  }

  /**
   * A lot that a check found ended, or that is declared finished without ever having been cancelled or stopped, has no
   * phase pending and no task running, and stays so whatever comes, be it a stale refresh, a cancel or a stop.
   */
  lemma DeclaredIsFinal(l: Lot, events: seq<Event>, more: seq<Event>)
    requires Written(l) && IsRun(l, events) && IsRun(EndOf(l, events), more)
    requires var m := EndOf(l, events); m.checked || (m.view.declared && !m.asked)
    ensures var m, n := EndOf(l, events), EndOf(EndOf(l, events), more);
            && Settled(m) && Settled(n) && (m.checked ==> n.checked)
            && n.phases.children == m.phases.children && n.phases.live == m.phases.live
  {
    WrittenInv(l);
    InvAlongRun(l, events);
    InvAlongRun(EndOf(l, events), more);
    SettledStays(EndOf(l, events), EndOf(EndOf(l, events), more));
  }

  lemma SettledStays(m: Lot, n: Lot)
    requires Settled(m) && Carried(m, n)
    ensures Settled(n)
  {
  }

  /** The exception: on a cancelled lot with all its tasks launched, the next refresh can declare it while they run. */
  lemma CancelShowsTooEarly(l: Lot) returns (events: seq<Event>)
    requires Inv(l) && |l.phases.children| == l.phases.total > 0
    ensures IsRun(l, events)
    ensures var m := EndOf(l, events); m.view.declared && m.phases == l.phases && Done(m) == Done(l)
  {
    var all := TaskSet(l.phases.children);
    var m := Apply(l, Cancel(all));
    var n := Apply(m, PollRead);
    DistinctChildren(l.phases);
    CancelThenRead(l, all);
    var rest := AllReportedBad(n, |l.polls|);
    RunStep(m, PollRead, rest);
    RunStep(l, Cancel(all), [PollRead] + rest);
    events := [Cancel(all)] + ([PollRead] + rest);
  }

  lemma CancelThenRead(l: Lot, forced: set<TaskId>)
    requires forced <= TaskSet(l.phases.children)
    ensures var m := Apply(l, Cancel(forced));
            var n := Apply(m, PollRead);
            && n.phases == l.phases && Done(n) == Done(l) && |n.polls| == |l.polls| + 1
            && n.polls[|l.polls|] == Reading(l.phases.children, l.phases.total, m.view)
            && m.view.cancelled && m.view.forced == forced
  {
  }

  /** A refresh that takes every child it forced for failed. */
  lemma AllReportedBad(l: Lot, k: nat) returns (events: seq<Event>)
    requires k < |l.polls| && l.polls[k].Reading? && 0 < l.polls[k].total == l.phases.total
    requires |TaskSet(l.polls[k].children)| == l.phases.total
    requires l.polls[k].view.cancelled && l.polls[k].view.forced == TaskSet(l.polls[k].children)
    ensures IsRun(l, events)
    ensures var m := EndOf(l, events); m.view.declared && m.phases == l.phases && Done(m) == Done(l)
  {
    var e := PollWrite(k, {}, TaskSet(l.polls[k].children));
    assert Enabled(l, e);
    RunStep(l, e, []);
    events := [e] + [];
  }

  lemma RunStep(l: Lot, e: Event, rest: seq<Event>)
    requires Enabled(l, e) && IsRun(Apply(l, e), rest)
    ensures IsRun(l, [e] + rest) && EndOf(l, [e] + rest) == EndOf(Apply(l, e), rest)
  {
    assert ([e] + rest)[1..] == rest;
  }

  /** So can a stop of all backups, at once: it declares every lot and cancels those that were not declared. */
  lemma StopAllDeclares(l: Lot)
    ensures var m := Apply(l, StopAll);
            && m.view.declared && m.halt && (!l.view.declared ==> m.view.cancelled && m.asked)
            && m.phases == l.phases && Done(m) == Done(l) && m.checks == l.checks && m.checked == l.checked
  {
  }

  /** At most one follow-up is scheduled, only by a bulk lot, and only after a check found all its tasks ended. */
  lemma OneFollowUp(l: Lot, events: seq<Event>)
    requires Written(l) && IsRun(l, events)
    ensures var m := EndOf(l, events);
            && m.followUps <= 1
            && (m.followUps == 1 ==> l.kind == BackupBulk && m.checked && Settled(m))
            && (l.kind == BackupReprocess ==> m.followUps == 0)
  {
    WrittenInv(l);
    InvAlongRun(l, events);
  }

  /** The phases of the plan whose groups all pass the callbacks' checks, no device twice. */
  ghost predicate WellFormedPlan(stage: Stage) {
    stage.AwaitDirect? ==> WellFormedJump(stage.jump) && forall g | g in stage.vpn :: Enqueueable(g)
  }

  /** After the last phase the count reaches the total exactly when the plan was well formed. */
  lemma CompleteIffWellFormed(l: Lot, events: seq<Event>)
    requires Written(l) && IsRun(l, events) && EndOf(l, events).phases.stage.Over?
    ensures var m := EndOf(l, events);
            |m.phases.children| == m.phases.total <==> WellFormedPlan(l.phases.stage)
  {
    WrittenInv(l);
    InvAlongRun(l, events);
    if l.phases.stage.AwaitDirect? {
      JumpEntriesSize(l.phases.stage.jump);
      VpnLaunchesSize(l.phases.stage.vpn);
    }
  }

  lemma {:induction false} GroupsEnqueueable(targets: seq<Target>, keys: seq<string>)
    requires forall key | key in keys :: key != [] && Strip(key) == key
    ensures forall g | g in GroupsOf(targets, keys, true) :: Enqueueable(g)
    decreases |keys|
  {
    if keys != [] {
      var k := |keys| - 1;
      assert keys[k] in keys;
      assert forall key | key in keys[..k] :: key in keys;
      GroupsEnqueueable(targets, keys[..k]);
    }
  }

  lemma PayloadEnqueueable(targets: seq<Target>)
    requires forall t | t in targets :: GroupKey(t) != [] && Strip(GroupKey(t)) == GroupKey(t)
    ensures forall g | g in Payload(targets) :: Enqueueable(g)
  {
    var keys := Interleave.Bastions(targets, GroupKey);
    forall key | key in keys ensures key != [] && Strip(key) == key {
      var t := Interleave.BastionOfSome(targets, GroupKey, key);
    }
    GroupsEnqueueable(targets, keys);
  }

  /** The planner's own payloads are well formed, so its lots do reach their total. */
  lemma PlanIsWellFormed(kind: Kind, targets: seq<Target>)
    requires NoDup(Ids(targets))
    requires forall t | t in targets && t.group.Some? ::
               t.group.value.id != [] && Strip(t.group.value.id) == t.group.value.id
    ensures WellFormedPlan(PlannedLot(kind, targets).phases.stage)
  {
    forall route: Route, t | route != Alone && t in OnRoute(targets, route) ensures t in targets && t.group.Some? {
      OnRouteHas(targets, route, t);
    }
    PayloadEnqueueable(OnRoute(targets, ByJump));
    PayloadEnqueueable(OnRoute(targets, ByVpn));
    OnRouteNoDup(targets, ByJump);
    PayloadCovers(OnRoute(targets, ByJump), true);
  }

  // ---------------------------------------------------------------- the order of the phases

  /** A callback waits for every task that has been launched. */
  ghost predicate WaitsForAll(l: Lot) {
    && (l.phases.stage.AwaitDirect? ==> l.phases.live <= l.phases.stage.waits)
    && (l.phases.stage.AwaitJump? ==> l.phases.live <= l.phases.stage.waits + Done(l))
  }

  lemma StepWaits(l: Lot, e: Event)
    requires WaitsForAll(l) && Enabled(l, e)
    ensures WaitsForAll(Apply(l, e))
    ensures Apply(l, e).phases.live != l.phases.live ==> l.phases.live <= Done(l)
  {
    match e
    case DirectDone => JumpWaits(l);
    case JumpDone =>
    case Write =>
    case Advance(k, enabled, candidates) => assert Done(Apply(l, e)) == Done(l);
    case _ =>
  }

  lemma JumpWaits(l: Lot)
    requires WaitsForAll(l) && Enabled(l, DirectDone)
    ensures WaitsForAll(Apply(l, DirectDone)) && l.phases.live <= Done(l)
  {
  }

  lemma {:induction false} WaitsAlongRun(l: Lot, events: seq<Event>)
    requires WaitsForAll(l) && IsRun(l, events)
    ensures WaitsForAll(EndOf(l, events))
    decreases |events|
  {
    if events != [] {
      StepWaits(l, events[0]);
      WaitsAlongRun(Apply(l, events[0]), events[1..]);
    }
  }

  /** In any run a phase launches its tasks only when every task of the phases before it has ended. */
  lemma PhasesInOrder(l: Lot, events: seq<Event>, e: Event)
    requires Written(l) && IsRun(l, events) && Enabled(EndOf(l, events), e)
    requires Apply(EndOf(l, events), e).phases.live != EndOf(l, events).phases.live
    ensures EndOf(l, events).phases.live <= Done(EndOf(l, events))
  {
    WaitsAlongRun(l, events);
    StepWaits(EndOf(l, events), e);
  }

  /** And none at all while a stop or a cancel is in force. */
  lemma StopLaunchesNothing(l: Lot, e: Event)
    requires Enabled(l, e) && (l.halt || l.view.cancelled)
    ensures Apply(l, e).phases.live == l.phases.live
  {
  }
}
