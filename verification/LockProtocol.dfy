/** Many workers competing for VPN group locks, the global VPN lock and the slots of each Jump Host. */
module LockProtocol {
  import opened Wrappers
  import opened ConnectionMode

  type WorkerId = nat
  type Bastion = string

  const MAX_SLOTS: nat := 16

  /** The environment settings that matter here. */
  datatype Config = Config(slotTtl: nat, connectRetries: nat, isolatedVpnWorker: bool)

  // ---------------------------------------------------------------- jobs

  datatype Need = NoSlot | SlotOf(bastion: Bastion)

  /** One device backed up on its own, or the devices of a group backed up in turn. */
  datatype Job =
    | Single(need: Need, vpn: Option<string>)
    | Batch(vpn: Option<string>, needs: seq<Need>)

  /** _resolve_jump_host_lock: a slot is needed only in jump mode, with a jump host that is not the target itself. */
  function SlotNeed(group: Group, device: Device): Need {
    var host := Normalize(group.jumpHost);
    var target := Normalize(device.address);
    if !UsesJumpHost(Some(group), Some(device)) || host == "" || (target != "" && target == host) then NoSlot
    else SlotOf(SlotKey(host, group.jumpPort))
  }

  /** A missing port, 0 here, is the standard one. */
  function PortOf(port: nat): nat {
    if port == 0 then 22 else port
  }

  /** The slots belong to a host and port. */
  function SlotKey(host: string, port: nat): Bastion {
    host + ":" + Text.NatText(PortOf(port))
  }

  function Normalize(host: string): string {
    Text.Lower(Text.Strip(host))
  }

  /** run_backup_task: first the slot, and inside it the VPN session when the mode is VPN. */
  function JobOfDevice(group: Group, device: Device): Job {
    Single(SlotNeed(group, device), if UsesVpnTunnel(Some(group), Some(device)) then Some(group.id) else None)
  }

  /** run_vpn_group_backups_task: one VPN session around all devices when any of them, or the caller, asks for it. */
  function JobOfGroup(group: Group, devices: seq<Device>, forceVpn: bool): Job {
    var vpn := forceVpn || exists i | 0 <= i < |devices| :: UsesVpnTunnel(Some(group), Some(devices[i]));
    Batch(if vpn then Some(group.id) else None,
          seq(|devices|, i requires 0 <= i < |devices| => SlotNeed(group, devices[i])))
  }

  /** Two groups share slots exactly when their normalised host and their port agree. */
  lemma SlotKeysDiffer(host: string, port: nat, host': string, port': nat)
    ensures SlotKey(host, port) == SlotKey(host', port') <==> host == host' && PortOf(port) == PortOf(port')
  {
    var x, y := Text.NatText(PortOf(port)), Text.NatText(PortOf(port'));
    Text.NatTextValue(PortOf(port));
    Text.NatTextValue(PortOf(port'));
    if host + ":" + x == host' + ":" + y {
      SameHost(host, x, host', y);
    }
  }

  lemma LastIsColon(host: string, x: string)
    requires Text.AllDigits(x)
    ensures var a := host + ":" + x; a[|a| - 1] == ':' <==> x == []
  {
  }

  /** The colon before the port is the last one. */
  lemma {:induction false} SameHost(host: string, x: string, host': string, y: string)
    requires Text.AllDigits(x) && Text.AllDigits(y) && host + ":" + x == host' + ":" + y
    ensures host == host' && x == y
    decreases |x|
  {
    var a, b := host + ":" + x, host' + ":" + y;
    var k := |a| - 1;
    LastIsColon(host, x);
    LastIsColon(host', y);
    if x == [] {
      assert a[..k] == host && b[..k] == host';
    } else {
      var x', y' := x[..|x| - 1], y[..|y| - 1];
      assert a[..k] == host + ":" + x' && b[..k] == host' + ":" + y';
      assert a[k] == x[|x| - 1] && b[k] == y[|y| - 1];
      SameHost(host, x', host', y');
    }
  }

  /** A worker that takes the slot before the VPN locks never needs both. */
  predicate OrderedJob(job: Job) {
    job.Single? ==> job.need.NoSlot? || job.vpn.None?
  }

  lemma JobsAreOrdered(group: Group, device: Device, devices: seq<Device>, forceVpn: bool)
    ensures OrderedJob(JobOfDevice(group, device)) && OrderedJob(JobOfGroup(group, devices, forceVpn))
  {
  }

  // ---------------------------------------------------------------- states

  datatype Held = Held(bastion: Bastion, idx: nat, max: nat, expires: nat)

  datatype Pc =
    | Start
    | WaitSlot(max: nat)
    | WaitGroup
    | WaitGlobal
    | Connecting(attempt: nat)
    | AtDevice
    | Running
    | FreeSlot(abort: bool)
    | FreeGlobal
    | FreeGroup
    | Done

  datatype Worker = Worker(job: Job, pc: Pc, next: nat, slot: Option<Held>, hasGroup: bool, hasGlobal: bool)

  datatype Lease = Lease(owner: WorkerId, expires: nat)

  datatype State = State(
    workers: map<WorkerId, Worker>,
    groupLocks: map<string, WorkerId>,
    globalLock: Option<WorkerId>,
    slots: map<(Bastion, nat), Lease>,
    now: nat)

  // ---------------------------------------------------------------- steps

  datatype Action =
    | Begin(max: nat)
    | TakeSlot(idx: nat)
    | PollSlot
    | QuitSlot(abort: bool)
    | TakeGroup
    | PollGroup
    | TakeGlobal
    | PollGlobal
    | QuitVpn
    | Connected
    | ConnectRetry
    | NextDevice(max: nat)
    | LeaveBatch
    | StopBatch
    | Finish(abort: bool)
    | DropSlot
    | DropGlobal
    | DropGroup

  /** A step of one worker, or the passage of time, at which overdue slot leases vanish. */
  datatype Event = Act(w: WorkerId, a: Action) | Tick(seconds: nat)

  function NeedOf(wk: Worker): Need {
    match wk.job
    case Single(need, _) => need
    case Batch(_, needs) => if wk.next < |needs| then needs[wk.next] else NoSlot
  }

  /** Where a worker stands that has dealt with one device, or gives up the rest of its batch. */
  function AfterDevice(wk: Worker, abort: bool): Worker {
    if wk.job.Single? then wk.(pc := Done)
    else if !abort then wk.(pc := AtDevice, next := wk.next + 1)
    else LeftSession(wk)
  }

  function LeftSession(wk: Worker): Worker {
    wk.(pc := if wk.job.vpn.Some? then FreeGlobal else Done)
  }

  /** The program point allows the action. */
  predicate Ready(c: Config, wk: Worker, a: Action) {
    match a
    case Begin(max) => wk.pc.Start? && 1 <= max <= MAX_SLOTS
    case TakeSlot(idx) => wk.pc.WaitSlot? && NeedOf(wk).SlotOf? && idx < wk.pc.max
    case PollSlot => wk.pc.WaitSlot?
    case QuitSlot(_) => wk.pc.WaitSlot?
    case TakeGroup => wk.pc.WaitGroup? && wk.job.vpn.Some?
    case PollGroup => wk.pc.WaitGroup?
    case TakeGlobal => wk.pc.WaitGlobal?
    case PollGlobal => wk.pc.WaitGlobal?
    case QuitVpn => wk.pc.WaitGroup? || wk.pc.WaitGlobal? || wk.pc.Connecting?
    case Connected => wk.pc.Connecting?
    case ConnectRetry => wk.pc.Connecting? && wk.pc.attempt < c.connectRetries
    case NextDevice(max) => wk.pc.AtDevice? && wk.job.Batch? && wk.next < |wk.job.needs| && 1 <= max <= MAX_SLOTS
    case LeaveBatch => wk.pc.AtDevice? && wk.job.Batch? && wk.next >= |wk.job.needs|
    case StopBatch => wk.pc.AtDevice? && wk.job.Batch? && wk.next < |wk.job.needs|
    case Finish(_) => wk.pc.Running?
    case DropSlot => wk.pc.FreeSlot?
    case DropGlobal => wk.pc.FreeGlobal?
    case DropGroup => wk.pc.FreeGroup?
  }

  /** The lock the action takes is free: Redis SET NX, or a non-blocking flock. */
  predicate LockFree(s: State, wk: Worker, a: Action) {
    match a
    case TakeSlot(idx) => NeedOf(wk).SlotOf? && (NeedOf(wk).bastion, idx) !in s.slots
    case TakeGroup => wk.job.vpn.Some? && wk.job.vpn.value !in s.groupLocks
    case TakeGlobal => s.globalLock.None?
    case _ => true
  }

  predicate Enabled(c: Config, s: State, w: WorkerId, a: Action) {
    w in s.workers && Ready(c, s.workers[w], a) && LockFree(s, s.workers[w], a)
  }

  /** What a step does to the worker itself. */
  function Move(c: Config, now: nat, wk: Worker, a: Action): Worker
    requires Ready(c, wk, a)
  {
    match a
    case Begin(max) =>
      if wk.job.Single? && wk.job.need.SlotOf? then wk.(pc := WaitSlot(max))
      else if wk.job.vpn.Some? then wk.(pc := WaitGroup)
      else if wk.job.Single? then wk.(pc := Running)
      else wk.(pc := AtDevice)
    case TakeSlot(idx) =>
      wk.(slot := Some(Held(NeedOf(wk).bastion, idx, wk.pc.max, now + c.slotTtl)),
          pc := if wk.job.Single? && wk.job.vpn.Some? then WaitGroup else Running)
    case PollSlot => wk
    case QuitSlot(abort) => AfterDevice(wk, abort)
    case TakeGroup => wk.(hasGroup := true, pc := if c.isolatedVpnWorker then Connecting(1) else WaitGlobal)
    case PollGroup => wk
    case TakeGlobal => wk.(hasGlobal := true, pc := Connecting(1))
    case PollGlobal => wk
    case QuitVpn => wk.(pc := FreeGlobal)
    case Connected => wk.(pc := if wk.job.Single? then Running else AtDevice)
    case ConnectRetry => wk.(pc := Connecting(wk.pc.attempt + 1))
    case NextDevice(max) => wk.(pc := if NeedOf(wk).SlotOf? then WaitSlot(max) else Running)
    case LeaveBatch => LeftSession(wk)
    case StopBatch => LeftSession(wk)
    case Finish(abort) =>
      if wk.job.Single? && wk.job.vpn.Some? then wk.(pc := FreeGlobal)
      else if wk.slot.Some? then wk.(pc := FreeSlot(abort))
      else AfterDevice(wk, abort)
    case DropSlot => AfterDevice(wk.(slot := None), wk.pc.abort)
    case DropGlobal => wk.(hasGlobal := false, pc := FreeGroup)
    case DropGroup => wk.(hasGroup := false, pc := if wk.slot.Some? then FreeSlot(false) else Done)
  }

  /** A worker deletes a slot lease only when the stored token is its own. */
  function SlotsAfter(c: Config, s: State, w: WorkerId, a: Action): map<(Bastion, nat), Lease>
    requires Enabled(c, s, w, a)
  {
    var wk := s.workers[w];
    match a
    case TakeSlot(idx) => s.slots[(NeedOf(wk).bastion, idx) := Lease(w, s.now + c.slotTtl)]
    case DropSlot =>
      if wk.slot.None? then s.slots
      else
        var key := (wk.slot.value.bastion, wk.slot.value.idx);
        if key in s.slots && s.slots[key].owner == w then s.slots - {key} else s.slots
    case _ => s.slots
  }

  function Next(c: Config, s: State, w: WorkerId, a: Action): State
    requires Enabled(c, s, w, a)
  {
    var wk := s.workers[w];
    s.(workers := s.workers[w := Move(c, s.now, wk, a)],
       slots := SlotsAfter(c, s, w, a),
       groupLocks := if a.TakeGroup? then s.groupLocks[wk.job.vpn.value := w]
                     else if a.DropGroup? && wk.hasGroup && wk.job.vpn.Some? then s.groupLocks - {wk.job.vpn.value}
                     else s.groupLocks,
       globalLock := if a.TakeGlobal? then Some(w)
                     else if a.DropGlobal? && wk.hasGlobal then None
                     else s.globalLock)
  }

  function AfterTick(s: State, seconds: nat): State {
    var now := s.now + seconds;
    s.(now := now, slots := map k | k in s.slots && s.slots[k].expires > now :: s.slots[k])
  }

  predicate EventEnabled(c: Config, s: State, e: Event) {
    e.Act? ==> Enabled(c, s, e.w, e.a)
  }

  function Apply(c: Config, s: State, e: Event): State
    requires EventEnabled(c, s, e)
  {
    match e
    case Act(w, a) => Next(c, s, w, a)
    case Tick(seconds) => AfterTick(s, seconds)
  }

  predicate IsRun(c: Config, s: State, events: seq<Event>)
    decreases |events|
  {
    events == [] || (EventEnabled(c, s, events[0]) && IsRun(c, Apply(c, s, events[0]), events[1..]))
  }

  function EndOf(c: Config, s: State, events: seq<Event>): State
    requires IsRun(c, s, events)
    decreases |events|
  {
    if events == [] then s else EndOf(c, Apply(c, s, events[0]), events[1..])
  }

  /** Any number of workers, none of which has begun; no lock is taken. */
  ghost predicate Initial(s: State) {
    && s.groupLocks == map[] && s.globalLock == None && s.slots == map[]
    && forall w | w in s.workers :: s.workers[w] == Worker(s.workers[w].job, Start, 0, None, false, false)
  }

  // ---------------------------------------------------------------- the invariant

  /** In the VPN session its job asks for, if any. */
  predicate InSession(c: Config, wk: Worker) {
    wk.hasGroup == wk.job.vpn.Some? && wk.hasGlobal == (wk.job.vpn.Some? && !c.isolatedVpnWorker)
  }

  /** The worker is at a device of its job, with exactly the slot that this device needs. */
  predicate NeedMet(wk: Worker) {
    && (wk.job.Batch? ==> wk.next < |wk.job.needs|)
    && match NeedOf(wk)
       case NoSlot => wk.slot.None?
       case SlotOf(bastion) => wk.slot.Some? && wk.slot.value.bastion == bastion
  }

  /** On the way into its VPN session a single job has its slot already, a batch has none. */
  predicate SlotFirst(wk: Worker) {
    wk.slot.Some? <==> wk.job.Single? && wk.job.need.SlotOf?
  }

  /** What each program point says about the worker's own locks. */
  predicate Local(c: Config, wk: Worker) {
    var vpn := wk.job.vpn.Some?;
    && (wk.hasGroup || wk.hasGlobal ==> vpn)
    && (wk.slot.Some? ==>
          wk.slot.value.idx < wk.slot.value.max <= MAX_SLOTS && NeedOf(wk) == SlotOf(wk.slot.value.bastion))
    && match wk.pc
       case Start => !wk.hasGroup && !wk.hasGlobal && wk.slot.None?
       case WaitSlot(max) => wk.slot.None? && 1 <= max <= MAX_SLOTS && NeedOf(wk).SlotOf?
                             && (if wk.job.Single? then !wk.hasGroup && !wk.hasGlobal else InSession(c, wk))
       case WaitGroup => vpn && !wk.hasGroup && !wk.hasGlobal && SlotFirst(wk)
       case WaitGlobal => vpn && wk.hasGroup && !wk.hasGlobal && !c.isolatedVpnWorker && SlotFirst(wk)
       case Connecting(attempt) =>
         vpn && InSession(c, wk) && SlotFirst(wk) && (attempt <= 1 || attempt <= c.connectRetries)
       case AtDevice => wk.job.Batch? && InSession(c, wk) && wk.slot.None?
       case Running => InSession(c, wk) && NeedMet(wk)
       case FreeSlot(_) => wk.slot.Some? && (if wk.job.Single? then !wk.hasGroup && !wk.hasGlobal else InSession(c, wk))
       case FreeGlobal => vpn && (wk.job.Batch? ==> wk.slot.None?)
       case FreeGroup => vpn && !wk.hasGlobal && (wk.job.Batch? ==> wk.slot.None?)
       case Done => !wk.hasGroup && !wk.hasGlobal && wk.slot.None?
  }

  ghost predicate LocalsHold(c: Config, s: State) {
    forall w | w in s.workers :: Local(c, s.workers[w])
  }

  /** The file lock of a VPN group is held by exactly the worker that thinks so. */
  ghost predicate GroupLocksAgree(s: State) {
    && (forall w | w in s.workers && s.workers[w].hasGroup && s.workers[w].job.vpn.Some? ::
          s.workers[w].job.vpn.value in s.groupLocks && s.groupLocks[s.workers[w].job.vpn.value] == w)
    && (forall g | g in s.groupLocks ::
          var w := s.groupLocks[g];
          w in s.workers && s.workers[w].hasGroup && s.workers[w].job.vpn == Some(g))
  }

  ghost predicate GlobalLockAgrees(s: State) {
    && (forall w | w in s.workers && s.workers[w].hasGlobal :: s.globalLock == Some(w))
    && (s.globalLock.Some? ==> s.globalLock.value in s.workers && s.workers[s.globalLock.value].hasGlobal)
  }

  predicate Holds(wk: Worker, key: (Bastion, nat)) {
    wk.slot.Some? && (wk.slot.value.bastion, wk.slot.value.idx) == key
  }

  /** Every stored lease is unexpired and is the slot its owner holds. */
  ghost predicate LeasesOwned(s: State) {
    forall key | key in s.slots ::
      var l := s.slots[key];
      && l.expires > s.now && l.owner in s.workers
      && Holds(s.workers[l.owner], key) && s.workers[l.owner].slot.value.expires == l.expires
  }

  /** Every holder within its time still has its lease. */
  ghost predicate HoldersLeased(s: State) {
    forall w | w in s.workers && s.workers[w].slot.Some? && s.workers[w].slot.value.expires > s.now ::
      var h := s.workers[w].slot.value;
      (h.bastion, h.idx) in s.slots && s.slots[(h.bastion, h.idx)] == Lease(w, h.expires)
  }

  ghost predicate Inv(c: Config, s: State) {
    LocalsHold(c, s) && GroupLocksAgree(s) && GlobalLockAgrees(s) && LeasesOwned(s) && HoldersLeased(s)
  }

  lemma InitialInv(c: Config, s: State)
    requires Initial(s)
    ensures Inv(c, s)
  {
  }

  lemma MoveKeepsLocal(c: Config, now: nat, wk: Worker, a: Action)
    requires Local(c, wk) && Ready(c, wk, a)
    ensures Local(c, Move(c, now, wk, a))
  {
    match a {
      case Begin(_) =>
      case TakeSlot(_) =>
      case QuitSlot(_) =>
      case Finish(_) =>
      case DropSlot =>
      case _ =>
    }
  }

  /** Only the matching take and drop steps touch a worker's locks. */
  lemma MoveTouches(c: Config, now: nat, wk: Worker, a: Action)
    requires Ready(c, wk, a)
    ensures var next := Move(c, now, wk, a);
            && next.job == wk.job
            && next.hasGroup == (if a.TakeGroup? then true else if a.DropGroup? then false else wk.hasGroup)
            && next.hasGlobal == (if a.TakeGlobal? then true else if a.DropGlobal? then false else wk.hasGlobal)
            && (!a.TakeSlot? && !a.DropSlot? ==> next.slot == wk.slot)
            && (a.DropSlot? ==> next.slot.None?)
  {
  }

  lemma GroupLocksKept(c: Config, s: State, w: WorkerId, a: Action)
    requires w in s.workers && Local(c, s.workers[w]) && GroupLocksAgree(s) && Enabled(c, s, w, a)
    ensures GroupLocksAgree(Next(c, s, w, a))
  {
    MoveTouches(c, s.now, s.workers[w], a);
  }

  lemma GlobalLockKept(c: Config, s: State, w: WorkerId, a: Action)
    requires w in s.workers && Local(c, s.workers[w]) && GlobalLockAgrees(s) && Enabled(c, s, w, a)
    ensures GlobalLockAgrees(Next(c, s, w, a))
  {
    MoveTouches(c, s.now, s.workers[w], a);
  }

  lemma LeasesKept(c: Config, s: State, w: WorkerId, a: Action)
    requires w in s.workers && Local(c, s.workers[w]) && LeasesOwned(s) && Enabled(c, s, w, a) && c.slotTtl > 0
    ensures LeasesOwned(Next(c, s, w, a))
  {
    MoveTouches(c, s.now, s.workers[w], a);
  }

  lemma HoldersKept(c: Config, s: State, w: WorkerId, a: Action)
    requires w in s.workers && Local(c, s.workers[w]) && LeasesOwned(s) && HoldersLeased(s) && Enabled(c, s, w, a)
    ensures HoldersLeased(Next(c, s, w, a))
  {
    MoveTouches(c, s.now, s.workers[w], a);
  }

  lemma TickKept(c: Config, s: State, seconds: nat)
    requires Inv(c, s)
    ensures Inv(c, AfterTick(s, seconds))
  {
  }

  ghost predicate SameJobs(s: State, t: State) {
    t.workers.Keys == s.workers.Keys && forall w | w in s.workers :: t.workers[w].job == s.workers[w].job
  }

  ghost predicate OrderedJobs(s: State) {
    forall w | w in s.workers :: OrderedJob(s.workers[w].job)
  }

  lemma StepKept(c: Config, s: State, e: Event)
    requires Inv(c, s) && EventEnabled(c, s, e) && c.slotTtl > 0
    ensures Inv(c, Apply(c, s, e)) && SameJobs(s, Apply(c, s, e))
  {
    match e {
      case Act(w, a) =>
        MoveKeepsLocal(c, s.now, s.workers[w], a);
        MoveTouches(c, s.now, s.workers[w], a);
        GroupLocksKept(c, s, w, a);
        GlobalLockKept(c, s, w, a);
        LeasesKept(c, s, w, a);
        HoldersKept(c, s, w, a);
      case Tick(seconds) =>
        TickKept(c, s, seconds);
    }
  }

  /** The invariant holds in every state any interleaving reaches. */
  lemma {:induction false} InvAlongRun(c: Config, s: State, events: seq<Event>)
    requires Inv(c, s) && IsRun(c, s, events) && c.slotTtl > 0
    ensures Inv(c, EndOf(c, s, events)) && SameJobs(s, EndOf(c, s, events))
    decreases |events|
  {
    if events != [] {
      StepKept(c, s, events[0]);
      InvAlongRun(c, Apply(c, s, events[0]), events[1..]);
    }
  }

  // ---------------------------------------------------------------- no circular wait

  /** A failed poll of a lock. */
  predicate IsWaiting(a: Action) {
    a.PollSlot? || a.PollGroup? || a.PollGlobal?
  }

  /** Leaving because of a timeout, a stop request or an error. */
  predicate IsGivingUp(a: Action, wk: Worker) {
    a.QuitSlot? || a.QuitVpn? || a.StopBatch?
  }

  ghost predicate CanAdvance(c: Config, s: State, w: WorkerId, a: Action) {
    Enabled(c, s, w, a) && !IsWaiting(a) && !IsGivingUp(a, s.workers[w])
  }

  predicate Polling(pc: Pc) {
    pc.WaitSlot? || pc.WaitGroup? || pc.WaitGlobal?
  }

  lemma UnblockedAdvances(c: Config, s: State, w: WorkerId) returns (a: Action)
    requires w in s.workers && Local(c, s.workers[w]) && !Polling(s.workers[w].pc) && !s.workers[w].pc.Done?
    ensures CanAdvance(c, s, w, a)
  {
    var wk := s.workers[w];
    match wk.pc {
      case Start => a := Begin(1);
      case Connecting(_) => a := Connected;
      case AtDevice => a := if wk.next < |wk.job.needs| then NextDevice(1) else LeaveBatch;
      case Running => a := Finish(false);
      case FreeSlot(_) => a := DropSlot;
      case FreeGlobal => a := DropGlobal;
      case FreeGroup => a := DropGroup;
    }
  }

  lemma SlotWaiterAdvances(c: Config, s: State, w: WorkerId) returns (v: WorkerId, a: Action)
    requires Inv(c, s) && OrderedJobs(s) && w in s.workers && s.workers[w].pc.WaitSlot?
    ensures CanAdvance(c, s, v, a)
  {
    var wk := s.workers[w];
    assert Local(c, wk);
    var key := (NeedOf(wk).bastion, 0);
    if key !in s.slots {
      v, a := w, TakeSlot(0);
    } else {
      v := s.slots[key].owner;
      assert Local(c, s.workers[v]) && OrderedJob(s.workers[v].job);
      a := UnblockedAdvances(c, s, v);
    }
  }

  lemma GlobalWaiterAdvances(c: Config, s: State, w: WorkerId) returns (v: WorkerId, a: Action)
    requires Inv(c, s) && OrderedJobs(s) && w in s.workers && s.workers[w].pc.WaitGlobal?
    ensures CanAdvance(c, s, v, a)
  {
    if s.globalLock.None? {
      v, a := w, TakeGlobal;
    } else {
      v := s.globalLock.value;
      assert Local(c, s.workers[v]);
      if s.workers[v].pc.WaitSlot? {
        v, a := SlotWaiterAdvances(c, s, v);
      } else {
        a := UnblockedAdvances(c, s, v);
      }
    }
  }

  lemma GroupWaiterAdvances(c: Config, s: State, w: WorkerId) returns (v: WorkerId, a: Action)
    requires Inv(c, s) && OrderedJobs(s) && w in s.workers && s.workers[w].pc.WaitGroup?
    ensures CanAdvance(c, s, v, a)
  {
    assert Local(c, s.workers[w]);
    var g := s.workers[w].job.vpn.value;
    if g !in s.groupLocks {
      v, a := w, TakeGroup;
    } else {
      v := s.groupLocks[g];
      assert Local(c, s.workers[v]);
      if s.workers[v].pc.WaitSlot? {
        v, a := SlotWaiterAdvances(c, s, v);
      } else if s.workers[v].pc.WaitGlobal? {
        v, a := GlobalWaiterAdvances(c, s, v);
      } else {
        a := UnblockedAdvances(c, s, v);
      }
    }
  }

  /** While any worker is unfinished, some worker can take a step that is neither a failed poll nor giving up. */
  lemma NoCircularWait(c: Config, s0: State, events: seq<Event>, w: WorkerId) returns (v: WorkerId, a: Action)
    requires Initial(s0) && OrderedJobs(s0) && IsRun(c, s0, events) && c.slotTtl > 0
    requires w in EndOf(c, s0, events).workers && !EndOf(c, s0, events).workers[w].pc.Done?
    ensures CanAdvance(c, EndOf(c, s0, events), v, a)
  {
    InitialInv(c, s0);
    InvAlongRun(c, s0, events);
    var s := EndOf(c, s0, events);
    assert OrderedJobs(s);
    assert Local(c, s.workers[w]);
    match s.workers[w].pc {
      case WaitSlot(_) => v, a := SlotWaiterAdvances(c, s, w);
      case WaitGroup => v, a := GroupWaiterAdvances(c, s, w);
      case WaitGlobal => v, a := GlobalWaiterAdvances(c, s, w);
      case _ => v := w; a := UnblockedAdvances(c, s, w);
    }
  }

  ghost predicate Stuck(c: Config, s: State) {
    (exists w :: w in s.workers && !s.workers[w].pc.Done?) && forall w, a :: !CanAdvance(c, s, w, a)
  }

  /** Two workers: one whose job takes a slot and then the VPN lock, one that takes them the other way round. */
  function Pair(b: Bastion, g: string, pc0: Pc, slot0: Option<Held>, pc1: Pc, inGroup: bool): State {
    State(map[0 := Worker(Single(SlotOf(b), Some(g)), pc0, 0, slot0, false, false),
              1 := Worker(Batch(Some(g), [SlotOf(b)]), pc1, 0, None, inGroup, false)],
          if inGroup then map[g := 1] else map[],
          None,
          if slot0.Some? then map[(b, 0) := Lease(0, slot0.value.expires)] else map[],
          0)
  }

  lemma PairStepsOfFirst(c: Config, b: Bastion, g: string)
    ensures var s0, s1 := Pair(b, g, Start, None, Start, false), Pair(b, g, WaitSlot(1), None, Start, false);
            && Enabled(c, s0, 0, Begin(1)) && Next(c, s0, 0, Begin(1)) == s1
            && Enabled(c, s1, 0, TakeSlot(0))
            && Next(c, s1, 0, TakeSlot(0)) == Pair(b, g, WaitGroup, Some(Held(b, 0, 1, c.slotTtl)), Start, false)
  {
  }

  lemma PairStepsOfSecond(c: Config, b: Bastion, g: string, h: Option<Held>)
    requires c.isolatedVpnWorker
    ensures var s2, s3 := Pair(b, g, WaitGroup, h, Start, false), Pair(b, g, WaitGroup, h, WaitGroup, false);
            var s4, s5 := Pair(b, g, WaitGroup, h, Connecting(1), true), Pair(b, g, WaitGroup, h, AtDevice, true);
            && Enabled(c, s2, 1, Begin(1)) && Next(c, s2, 1, Begin(1)) == s3
            && Enabled(c, s3, 1, TakeGroup) && Next(c, s3, 1, TakeGroup) == s4
            && Enabled(c, s4, 1, Connected) && Next(c, s4, 1, Connected) == s5
            && Enabled(c, s5, 1, NextDevice(1))
            && Next(c, s5, 1, NextDevice(1)) == Pair(b, g, WaitGroup, h, WaitSlot(1), true)
  {
  }

  lemma RunStep(c: Config, s: State, e: Event, rest: seq<Event>)
    requires EventEnabled(c, s, e) && IsRun(c, Apply(c, s, e), rest)
    ensures IsRun(c, s, [e] + rest) && EndOf(c, s, [e] + rest) == EndOf(c, Apply(c, s, e), rest)
  {
    assert ([e] + rest)[1..] == rest;
  }

  /** The order of the jobs matters: one job that takes a slot first and then a VPN lock is enough for a deadlock. */
  lemma UnorderedJobDeadlocks(c: Config, b: Bastion, g: string) returns (s0: State, events: seq<Event>)
    requires c.isolatedVpnWorker
    ensures Initial(s0) && IsRun(c, s0, events) && Stuck(c, EndOf(c, s0, events))
    ensures s0.workers.Keys == {0, 1} && OrderedJob(s0.workers[1].job) && !OrderedJob(s0.workers[0].job)
  {
    var h := Some(Held(b, 0, 1, c.slotTtl));
    s0 := Pair(b, g, Start, None, Start, false);
    var s1, s2 := Pair(b, g, WaitSlot(1), None, Start, false), Pair(b, g, WaitGroup, h, Start, false);
    var s3, s4 := Pair(b, g, WaitGroup, h, WaitGroup, false), Pair(b, g, WaitGroup, h, Connecting(1), true);
    var s5, s6 := Pair(b, g, WaitGroup, h, AtDevice, true), Pair(b, g, WaitGroup, h, WaitSlot(1), true);
    PairStepsOfFirst(c, b, g);
    PairStepsOfSecond(c, b, g, h);
    events := [];
    RunStep(c, s5, Act(1, NextDevice(1)), events);
    events := [Act(1, NextDevice(1))] + events;
    RunStep(c, s4, Act(1, Connected), events);
    events := [Act(1, Connected)] + events;
    RunStep(c, s3, Act(1, TakeGroup), events);
    events := [Act(1, TakeGroup)] + events;
    RunStep(c, s2, Act(1, Begin(1)), events);
    events := [Act(1, Begin(1))] + events;
    RunStep(c, s1, Act(0, TakeSlot(0)), events);
    events := [Act(0, TakeSlot(0))] + events;
    RunStep(c, s0, Act(0, Begin(1)), events);
    events := [Act(0, Begin(1))] + events;
    PairStuck(c, b, g, h.value);
  }

  lemma PairStuck(c: Config, b: Bastion, g: string, h: Held)
    requires h.bastion == b && h.idx == 0
    ensures Stuck(c, Pair(b, g, WaitGroup, Some(h), WaitSlot(1), true))
  {
    var s := Pair(b, g, WaitGroup, Some(h), WaitSlot(1), true);
    assert 0 in s.workers && !s.workers[0].pc.Done?;
    forall w, a ensures !CanAdvance(c, s, w, a) {
      if Enabled(c, s, w, a) {
        assert w == 0 || w == 1;
      }
    }
  }

  // ---------------------------------------------------------------- exclusion

  /** Two workers can hold the same slot only if one of them has outstayed the lease. */
  lemma SlotExclusion(c: Config, s0: State, events: seq<Event>, v: WorkerId, w: WorkerId)
    requires Initial(s0) && IsRun(c, s0, events) && c.slotTtl > 0
    requires var s := EndOf(c, s0, events);
             && v in s.workers && w in s.workers && v != w && s.workers[v].slot.Some?
             && Holds(s.workers[w], (s.workers[v].slot.value.bastion, s.workers[v].slot.value.idx))
    ensures var s := EndOf(c, s0, events);
            s.workers[v].slot.value.expires <= s.now || s.workers[w].slot.value.expires <= s.now
  {
    InitialInv(c, s0);
    InvAlongRun(c, s0, events);
  }

  /** The workers that hold a slot of the bastion within the time of their lease. */
  function LiveHolders(s: State, b: Bastion): set<WorkerId> {
    set w | && w in s.workers && s.workers[w].slot.Some? && s.workers[w].slot.value.bastion == b
            && s.workers[w].slot.value.expires > s.now
  }

  lemma {:induction false} DistinctBelow(ws: set<WorkerId>, idx: map<WorkerId, nat>, m: nat)
    requires forall w | w in ws :: w in idx && idx[w] < m
    requires forall v, w | v in ws && w in ws && v != w :: idx[v] != idx[w]
    ensures |ws| <= m
    decreases m
  {
    if v :| v in ws && idx[v] == m - 1 {
      DistinctBelow(ws - {v}, idx, m - 1);
    } else if m == 0 {
      assert ws == {};
    } else {
      DistinctBelow(ws, idx, m - 1);
    }
  }

  /** Holders within their time never outnumber the largest slot count one of them resolved on entry, so at most 16. */
  lemma SlotBound(c: Config, s0: State, events: seq<Event>, b: Bastion, m: nat)
    requires Initial(s0) && IsRun(c, s0, events) && c.slotTtl > 0
    requires var s := EndOf(c, s0, events);
             forall w | w in LiveHolders(s, b) :: s.workers[w].slot.value.max <= m
    ensures |LiveHolders(EndOf(c, s0, events), b)| <= m
    ensures |LiveHolders(EndOf(c, s0, events), b)| <= MAX_SLOTS
  {
    InitialInv(c, s0);
    InvAlongRun(c, s0, events);
    var s := EndOf(c, s0, events);
    var idx := map w | w in LiveHolders(s, b) :: s.workers[w].slot.value.idx;
    forall w | w in LiveHolders(s, b) ensures idx[w] < m && idx[w] < MAX_SLOTS {
      assert Local(c, s.workers[w]);
    }
    DistinctBelow(LiveHolders(s, b), idx, m);
    DistinctBelow(LiveHolders(s, b), idx, MAX_SLOTS);
  }

  /** However a worker ended (success, stop, timeout or exception), it holds no slot and neither VPN lock. */
  lemma DoneHoldsNothing(c: Config, s0: State, events: seq<Event>, w: WorkerId)
    requires Initial(s0) && IsRun(c, s0, events) && c.slotTtl > 0
    requires w in EndOf(c, s0, events).workers && EndOf(c, s0, events).workers[w].pc.Done?
    ensures var s := EndOf(c, s0, events);
            && s.workers[w].slot.None?
            && (forall key | key in s.slots :: s.slots[key].owner != w)
            && (forall g | g in s.groupLocks :: s.groupLocks[g] != w)
            && s.globalLock != Some(w)
  {
    InitialInv(c, s0);
    InvAlongRun(c, s0, events);
    assert Local(c, EndOf(c, s0, events).workers[w]);
  }

  /** Releasing a slot, even late, removes the worker's own lease and no other. */
  lemma ReleaseIsOwn(c: Config, s0: State, events: seq<Event>, w: WorkerId)
    requires Initial(s0) && IsRun(c, s0, events) && c.slotTtl > 0
    requires Enabled(c, EndOf(c, s0, events), w, DropSlot)
    ensures var s := EndOf(c, s0, events);
            var t := Next(c, s, w, DropSlot);
            && (forall key | key in s.slots && s.slots[key].owner != w ::
                  key in t.slots && t.slots[key] == s.slots[key])
            && (forall key | key in t.slots ::
                  t.slots[key].owner != w && key in s.slots && s.slots[key] == t.slots[key])
  {
    InitialInv(c, s0);
    InvAlongRun(c, s0, events);
    assert Local(c, EndOf(c, s0, events).workers[w]);
  }

  /** One VPN session per group, and one in all unless the worker runs in its own network namespace. */
  lemma VpnExclusion(c: Config, s0: State, events: seq<Event>, v: WorkerId, w: WorkerId)
    requires Initial(s0) && IsRun(c, s0, events) && c.slotTtl > 0
    requires var s := EndOf(c, s0, events);
             && v in s.workers && w in s.workers && v != w
             && s.workers[v].job.vpn.Some? && s.workers[w].job.vpn.Some?
             && s.workers[v].pc in {AtDevice, Running} && s.workers[w].pc in {AtDevice, Running}
    ensures c.isolatedVpnWorker
    ensures var s := EndOf(c, s0, events); s.workers[v].job.vpn != s.workers[w].job.vpn
  {
    InitialInv(c, s0);
    InvAlongRun(c, s0, events);
    var s := EndOf(c, s0, events);
    assert Local(c, s.workers[v]) && Local(c, s.workers[w]);
  }

  // ---------------------------------------------------------------- what a running worker holds

  /** The worker has its slot of the bastion, and the stored lease until its time is over. */
  ghost predicate HasSlot(s: State, w: WorkerId, bastion: Bastion)
    requires w in s.workers
  {
    && s.workers[w].slot.Some? && s.workers[w].slot.value.bastion == bastion
    && var h := s.workers[w].slot.value;
       h.expires > s.now ==> (bastion, h.idx) in s.slots && s.slots[(bastion, h.idx)].owner == w
  }

  ghost predicate HasNoSlot(s: State, w: WorkerId)
    requires w in s.workers
  {
    s.workers[w].slot.None? && forall key | key in s.slots :: s.slots[key].owner != w
  }

  /** The worker has the lock of the VPN group and, unless it is isolated, the global one. */
  ghost predicate HasVpn(c: Config, s: State, w: WorkerId, g: string) {
    g in s.groupLocks && s.groupLocks[g] == w && (!c.isolatedVpnWorker ==> s.globalLock == Some(w))
  }

  ghost predicate HasNoVpn(s: State, w: WorkerId) {
    (forall g | g in s.groupLocks :: s.groupLocks[g] != w) && s.globalLock != Some(w)
  }

  lemma RunningHolds(c: Config, s: State, w: WorkerId)
    requires Inv(c, s) && w in s.workers && s.workers[w].pc.Running?
    ensures NeedMet(s.workers[w])
    ensures match NeedOf(s.workers[w])
            case NoSlot => HasNoSlot(s, w)
            case SlotOf(bastion) => HasSlot(s, w, bastion)
    ensures match s.workers[w].job.vpn
            case None => HasNoVpn(s, w)
            case Some(g) => HasVpn(c, s, w, g)
  {
    assert Local(c, s.workers[w]);
  }

  /** In any state of any run: at a device a worker holds exactly what its job asks for there. */
  lemma RunningHoldsItsNeed(c: Config, s0: State, events: seq<Event>, w: WorkerId)
    requires Initial(s0) && IsRun(c, s0, events) && c.slotTtl > 0
    requires w in EndOf(c, s0, events).workers && EndOf(c, s0, events).workers[w].pc.Running?
    ensures var s := EndOf(c, s0, events);
            var wk := s.workers[w];
            && w in s0.workers && wk.job == s0.workers[w].job
            && (wk.job.Batch? ==> wk.next < |wk.job.needs|)
            && var need := if wk.job.Single? then wk.job.need else wk.job.needs[wk.next];
               && (need.NoSlot? ==> HasNoSlot(s, w))
               && (need.SlotOf? ==> HasSlot(s, w, need.bastion))
               && (wk.job.vpn.None? ==> HasNoVpn(s, w))
               && (wk.job.vpn.Some? ==> HasVpn(c, s, w, wk.job.vpn.value))
  {
    InitialInv(c, s0);
    InvAlongRun(c, s0, events);
    RunningHolds(c, EndOf(c, s0, events), w);
  }

  /** The device is reached through the group's jump host, and that is another machine. */
  predicate ThroughJumpHost(group: Group, device: Device) {
    && EffectiveMode(Some(group), Some(device)) == JumpHost
    && Normalize(group.jumpHost) != "" && Normalize(device.address) != Normalize(group.jumpHost)
  }

  /** Of the group's own jump host and port the worker holds a slot exactly when the device is reached through it. */
  ghost predicate SlotFits(s: State, w: WorkerId, group: Group, device: Device)
    requires w in s.workers
  {
    if ThroughJumpHost(group, device) then
      HasSlot(s, w, Normalize(group.jumpHost) + ":" + Text.NatText(if group.jumpPort == 0 then 22 else group.jumpPort))
    else HasNoSlot(s, w)
  }

  /** A device that is backed up on its own has its Jump Host slot, or its VPN locks, or neither, by its mode. */
  lemma DeviceRunsWithItsLocks(c: Config, s0: State, events: seq<Event>, w: WorkerId, group: Group, device: Device)
    requires Initial(s0) && IsRun(c, s0, events) && c.slotTtl > 0
    requires w in s0.workers && s0.workers[w].job == JobOfDevice(group, device)
    requires w in EndOf(c, s0, events).workers && EndOf(c, s0, events).workers[w].pc.Running?
    ensures var s := EndOf(c, s0, events);
            && SlotFits(s, w, group, device)
            && (if EffectiveMode(Some(group), Some(device)) == Vpn then HasVpn(c, s, w, group.id) else HasNoVpn(s, w))
  {
    RunningHoldsItsNeed(c, s0, events, w);
  }

  /** A group's devices run one after the other under one VPN session, each Jump Host device in its slot. */
  lemma GroupRunsWithItsLocks(c: Config, s0: State, events: seq<Event>, w: WorkerId, group: Group,
                              devices: seq<Device>, forceVpn: bool)
    requires Initial(s0) && IsRun(c, s0, events) && c.slotTtl > 0
    requires w in s0.workers && s0.workers[w].job == JobOfGroup(group, devices, forceVpn)
    requires w in EndOf(c, s0, events).workers && EndOf(c, s0, events).workers[w].pc.Running?
    ensures var s := EndOf(c, s0, events);
            && s.workers[w].next < |devices|
            && SlotFits(s, w, group, devices[s.workers[w].next])
            && (if forceVpn || exists i | 0 <= i < |devices| :: EffectiveMode(Some(group), Some(devices[i])) == Vpn
                then HasVpn(c, s, w, group.id) else HasNoVpn(s, w))
  {
    RunningHoldsItsNeed(c, s0, events, w);
  }

  // ---------------------------------------------------------------- the order of a batch

  /** How often the worker has turned to a device of its batch. */
  function Turns(events: seq<Event>, w: WorkerId): nat {
    if events == [] then 0
    else (if events[0].Act? && events[0].w == w && events[0].a.NextDevice? then 1 else 0) + Turns(events[1..], w)
  }

  /** A device is dealt with when its backup has ended or its slot never came. */
  predicate Deals(a: Action) {
    a.Finish? || a.QuitSlot?
  }

  function Dealt(events: seq<Event>, w: WorkerId): nat {
    if events == [] then 0
    else (if events[0].Act? && events[0].w == w && Deals(events[0].a) then 1 else 0) + Dealt(events[1..], w)
  }

  /** The worker leaves devices undone: no VPN session, a stop request, or an abort. */
  predicate Abandons(a: Action) {
    a.QuitVpn? || a.StopBatch? || (a.QuitSlot? && a.abort) || (a.Finish? && a.abort)
  }

  predicate NeverAbandons(events: seq<Event>, w: WorkerId) {
    forall i | 0 <= i < |events| :: events[i].Act? && events[i].w == w ==> !Abandons(events[i].a)
  }

  /** Where a worker is after n turns and d devices dealt with. */
  predicate InOrder(wk: Worker, n: nat, d: nat, abandoned: bool) {
    var ending := wk.pc.FreeGlobal? || wk.pc.FreeGroup? || wk.pc.Done?;
    match wk.job
    case Single(_, _) => if wk.pc.FreeSlot? || ending then d == 1 || abandoned else d == 0
    case Batch(_, needs) =>
      if ending then abandoned || (n == d == |needs|)
      else if wk.pc.FreeSlot? then n == d == wk.next + 1 <= |needs| && (wk.pc.abort ==> abandoned)
      else if wk.pc.WaitSlot? || wk.pc.Running? then n == wk.next + 1 <= |needs| && d == wk.next
      else n == d == wk.next <= |needs|
  }

  lemma MoveInOrder(c: Config, now: nat, wk: Worker, a: Action, n: nat, d: nat, abandoned: bool)
    requires Local(c, wk) && Ready(c, wk, a) && InOrder(wk, n, d, abandoned)
    ensures InOrder(Move(c, now, wk, a), if a.NextDevice? then n + 1 else n, if Deals(a) then d + 1 else d,
                    abandoned || Abandons(a))
  {
  }

  lemma StepInOrder(c: Config, s: State, e: Event, w: WorkerId, n: nat, d: nat, abandoned: bool)
    returns (n': nat, d': nat, abandoned': bool)
    requires LocalsHold(c, s) && EventEnabled(c, s, e) && w in s.workers && InOrder(s.workers[w], n, d, abandoned)
    ensures n' == n + (if e.Act? && e.w == w && e.a.NextDevice? then 1 else 0)
    ensures d' == d + (if e.Act? && e.w == w && Deals(e.a) then 1 else 0)
    ensures abandoned' <==> abandoned || (e.Act? && e.w == w && Abandons(e.a))
    ensures w in Apply(c, s, e).workers && InOrder(Apply(c, s, e).workers[w], n', d', abandoned')
  {
    n', d', abandoned' := n, d, abandoned;
    if e.Act? && e.w == w {
      MoveInOrder(c, s.now, s.workers[w], e.a, n, d, abandoned);
      n', d' := if e.a.NextDevice? then n + 1 else n, if Deals(e.a) then d + 1 else d;
      abandoned' := abandoned || Abandons(e.a);
    }
  }

  lemma {:induction false} TurnsInOrder(c: Config, s: State, events: seq<Event>, w: WorkerId, n: nat, d: nat,
                                        abandoned: bool)
    requires Inv(c, s) && IsRun(c, s, events) && c.slotTtl > 0 && w in s.workers
    requires InOrder(s.workers[w], n, d, abandoned)
    ensures w in EndOf(c, s, events).workers
    ensures InOrder(EndOf(c, s, events).workers[w], n + Turns(events, w), d + Dealt(events, w),
                    abandoned || !NeverAbandons(events, w))
    decreases |events|
  {
    if events != [] {
      var n', d', abandoned' := StepInOrder(c, s, events[0], w, n, d, abandoned);
      StepKept(c, s, events[0]);
      AbandonsNext(events, w);
      TurnsInOrder(c, Apply(c, s, events[0]), events[1..], w, n', d', abandoned');
    }
  }

  lemma AbandonsNext(events: seq<Event>, w: WorkerId)
    requires events != []
    ensures var e := events[0];
            NeverAbandons(events, w) <==> (e.Act? && e.w == w ==> !Abandons(e.a)) && NeverAbandons(events[1..], w)
  {
    assert events == [events[0]] + events[1..];
  }

  /** A batch turns to its devices in order and skips none: when it runs device n, it has dealt with n others. */
  lemma BatchRunsInOrder(c: Config, s0: State, events: seq<Event>, w: WorkerId)
    requires Initial(s0) && IsRun(c, s0, events) && c.slotTtl > 0 && w in s0.workers
    ensures w in EndOf(c, s0, events).workers
    ensures var wk := EndOf(c, s0, events).workers[w];
            wk.job.Batch? && wk.pc.Running? ==> Dealt(events, w) == wk.next && Turns(events, w) == wk.next + 1
  {
    InitialInv(c, s0);
    TurnsInOrder(c, s0, events, w, 0, 0, false);
  }

  /** A worker that ended, and did not abandon its job on the way, has dealt with each of its devices once. */
  lemma DoneMeansDealt(c: Config, s0: State, events: seq<Event>, w: WorkerId)
    requires Initial(s0) && IsRun(c, s0, events) && c.slotTtl > 0 && w in s0.workers
    requires NeverAbandons(events, w)
    ensures w in EndOf(c, s0, events).workers
    ensures EndOf(c, s0, events).workers[w].pc.Done? ==>
              match s0.workers[w].job
              case Single(_, _) => Dealt(events, w) == 1
              case Batch(_, needs) => Turns(events, w) == Dealt(events, w) == |needs|
  {
    InitialInv(c, s0);
    InvAlongRun(c, s0, events);
    TurnsInOrder(c, s0, events, w, 0, 0, false);
  }

  // ---------------------------------------------------------------- how long a slot lasts

  function Elapsed(events: seq<Event>): nat {
    if events == [] then 0 else (if events[0].Tick? then events[0].seconds else 0) + Elapsed(events[1..])
  }

  predicate NeverDrops(events: seq<Event>, w: WorkerId) {
    forall i | 0 <= i < |events| :: events[i] != Act(w, DropSlot)
  }

  lemma {:induction false} SlotKept(c: Config, s: State, events: seq<Event>, w: WorkerId)
    requires Inv(c, s) && IsRun(c, s, events) && c.slotTtl > 0
    requires w in s.workers && s.workers[w].slot.Some? && NeverDrops(events, w)
    ensures var t := EndOf(c, s, events);
            w in t.workers && t.workers[w].slot == s.workers[w].slot && t.now == s.now + Elapsed(events)
    decreases |events|
  {
    if events != [] {
      var e := events[0];
      StepKept(c, s, e);
      if e.Act? && e.w == w {
        assert Local(c, s.workers[w]);
        MoveTouches(c, s.now, s.workers[w], e.a);
      }
      SlotKept(c, Apply(c, s, e), events[1..], w);
    }
  }

  /** A slot that was taken stays the worker's for the whole lease, unless it is given back. */
  lemma LeaseLasts(c: Config, s0: State, events: seq<Event>, w: WorkerId, idx: nat, more: seq<Event>)
    requires Initial(s0) && IsRun(c, s0, events) && c.slotTtl > 0
    requires Enabled(c, EndOf(c, s0, events), w, TakeSlot(idx))
    requires IsRun(c, Next(c, EndOf(c, s0, events), w, TakeSlot(idx)), more)
    requires NeverDrops(more, w) && Elapsed(more) < c.slotTtl
    ensures var s := EndOf(c, s0, events);
            var t := EndOf(c, Next(c, s, w, TakeSlot(idx)), more);
            var key := (NeedOf(s.workers[w]).bastion, idx);
            key in t.slots && t.slots[key] == Lease(w, s.now + c.slotTtl)
  {
    InitialInv(c, s0);
    InvAlongRun(c, s0, events);
    var s := EndOf(c, s0, events);
    var t := Next(c, s, w, TakeSlot(idx));
    StepKept(c, s, Act(w, TakeSlot(idx)));
    TakenLasts(c, t, more, w);
  }

  lemma TakenLasts(c: Config, s: State, more: seq<Event>, w: WorkerId)
    requires Inv(c, s) && IsRun(c, s, more) && c.slotTtl > 0
    requires w in s.workers && s.workers[w].slot.Some? && NeverDrops(more, w)
    requires s.now + Elapsed(more) < s.workers[w].slot.value.expires
    ensures var h := s.workers[w].slot.value;
            var t := EndOf(c, s, more);
            (h.bastion, h.idx) in t.slots && t.slots[(h.bastion, h.idx)] == Lease(w, h.expires)
  {
    InvAlongRun(c, s, more);
    SlotKept(c, s, more, w);
  }

  /** Within one VPN session the code tries to connect at most as often as configured, and at least once. */
  lemma AttemptsBounded(c: Config, s0: State, events: seq<Event>, w: WorkerId)
    requires Initial(s0) && IsRun(c, s0, events) && c.slotTtl > 0
    requires w in EndOf(c, s0, events).workers && EndOf(c, s0, events).workers[w].pc.Connecting?
    ensures var attempt := EndOf(c, s0, events).workers[w].pc.attempt; attempt <= 1 || attempt <= c.connectRetries
  {
    InitialInv(c, s0);
    InvAlongRun(c, s0, events);
    assert Local(c, EndOf(c, s0, events).workers[w]);
  }
}
