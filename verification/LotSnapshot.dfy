/** _build_bulk_terminal_snapshot of app/tasks/backups.py: the device arithmetic of a finished lot. */
module LotSnapshot {
  import GroupRun

  /** What a child task reported, as the snapshot tells results apart. */
  datatype ChildResult =
    | Details(success: int, failed: int)   // a details list; the counts are 0 when the result has none
    | Flag(ok: bool)
    | ErrorText
    | Plain                                // anything else, an empty result among it

  /** `planned` is the child's entry in child_task_device_count; a child without one counts as one device. */
  datatype Child = Child(terminal: bool, planned: int, result: ChildResult)

  datatype LotMeta = LotMeta(children: seq<Child>, totalTasks: int, totalDevices: int, skipped: int, cancelled: bool)

  datatype Status = Success | Failed | Stopped

  datatype Snapshot = Snapshot(status: Status, totalTasks: int, doneTasks: int, successTasks: int, failedTasks: int,
                               totalDevices: int, doneDevices: int, successDevices: int, failedDevices: int)

  function Max(a: int, b: int): int {
    if a >= b then a else b
  }

  function DeviceTotal(c: Child): int {
    Max(1, c.planned)
  }

  /** The devices the child itself reports. */
  function Reported(c: Child): int {
    match c.result
    case Details(success, failed) => Max(0, success) + Max(0, failed)
    case Flag(ok) => 1
    case ErrorText => DeviceTotal(c)
    case Plain => DeviceTotal(c)
  }

  /** A child succeeds unless it reports a failed device, a false flag or an error. */
  predicate TaskSucceeds(c: Child) {
    match c.result
    case Details(success, failed) => failed <= 0
    case Flag(ok) => ok
    case ErrorText => false
    case Plain => true
  }

  /** What a child adds to the devices done. */
  function Counted(c: Child): int {
    Max(DeviceTotal(c), Reported(c))
  }

  /** The part of it counted as failed: what the child reports as failed, and if it failed also the missing devices. */
  function CountedFailed(c: Child): int {
    if TaskSucceeds(c) then 0
    else match c.result
      case Details(success, failed) => Counted(c) - Max(0, success)
      case _ => Counted(c)
  }

  function Sum(children: seq<Child>, f: Child -> int): int {
    if children == [] then 0 else Sum(children[..|children| - 1], f) + f(children[|children| - 1])
  }

  method CountChild(c: Child) returns (success: int, failed: int, taskSuccess: bool)
    ensures success >= 0 && failed >= 0
    ensures success + failed == Counted(c) && failed == CountedFailed(c) && taskSuccess == TaskSucceeds(c)
  {
    var deviceTotal := Max(1, c.planned);
    success, failed, taskSuccess := 0, 0, true;
    match c.result {
      case Details(s, f) =>
        success, failed := Max(0, s), Max(0, f);
        taskSuccess := failed == 0;
      case Flag(ok) =>
        taskSuccess := ok;
        success := if taskSuccess then 1 else 0;
        failed := if taskSuccess then 0 else 1;
      case ErrorText =>
        taskSuccess, success, failed := false, 0, deviceTotal;
      case Plain =>
        success, failed, taskSuccess := deviceTotal, 0, true;
    }
    if success + failed <= 0 {
      success := if taskSuccess then deviceTotal else 0;
      failed := if taskSuccess then 0 else deviceTotal;
    } else if success + failed < deviceTotal {
      var missing := deviceTotal - (success + failed);
      if taskSuccess {
        success := success + missing;
      } else {
        failed := failed + missing;
      }
    }
  }

  /** The lot is ready when it has tasks, they are all known and they have all ended. */
  predicate IsReady(m: LotMeta) {
    m.children != [] && |m.children| >= m.totalTasks && forall i | 0 <= i < |m.children| :: m.children[i].terminal
  }

  function Skipped(m: LotMeta): int {
    Max(0, m.skipped)
  }

  function StatusOf(m: LotMeta): Status {
    if m.cancelled then Stopped
    else if Skipped(m) + Sum(m.children, CountedFailed) > 0 then Failed
    else Success
  }

  function FailedTask(c: Child): int {
    if TaskSucceeds(c) then 0 else 1
  }

  lemma SumNext(children: seq<Child>, f: Child -> int, i: nat)
    requires i < |children|
    ensures Sum(children[..i + 1], f) == Sum(children[..i], f) + f(children[i])
  {
    assert children[..i + 1][..i] == children[..i];
  }

  /** The loop over the children; it gives up at the first that has not ended. */
  method CountChildren(children: seq<Child>)
    returns (ready: bool, doneTasks: int, successTasks: int, failedTasks: int,
             done: int, success: int, failed: int, planned: int)
    ensures ready <==> forall i | 0 <= i < |children| :: children[i].terminal
    ensures ready ==> && successTasks + failedTasks == doneTasks == |children| && success + failed == done
                      && failedTasks == Sum(children, FailedTask) && done == Sum(children, Counted)
                      && failed == Sum(children, CountedFailed) && planned == Sum(children, DeviceTotal)
  {
    doneTasks, successTasks, failedTasks := 0, 0, 0;
    done, success, failed, planned := 0, 0, 0, 0;
    for i := 0 to |children|
      invariant forall j | 0 <= j < i :: children[j].terminal
      invariant successTasks + failedTasks == doneTasks == i && failedTasks == Sum(children[..i], FailedTask)
      invariant success + failed == done && done == Sum(children[..i], Counted)
      invariant failed == Sum(children[..i], CountedFailed)
      invariant planned == Sum(children[..i], DeviceTotal)
    {
      if !children[i].terminal {
        ready := false;
        return;
      }
      SumNext(children, FailedTask, i);
      SumNext(children, Counted, i);
      SumNext(children, CountedFailed, i);
      SumNext(children, DeviceTotal, i);
      var childSuccess, childFailed, taskSuccess := CountChild(children[i]);
      doneTasks := doneTasks + 1;
      done := done + childSuccess + childFailed;
      success := success + childSuccess;
      failed := failed + childFailed;
      if taskSuccess {
        successTasks := successTasks + 1;
      } else {
        failedTasks := failedTasks + 1;
      }
      planned := planned + DeviceTotal(children[i]);
    }
    assert children[..|children|] == children;
    ready := true;
  }

  method BuildSnapshot(m: LotMeta) returns (ready: bool, s: Snapshot)
    ensures ready <==> IsReady(m)
    ensures ready ==>
              && s.doneTasks == s.totalTasks == |m.children|
              && s.failedTasks == Sum(m.children, FailedTask)
              && s.successTasks + s.failedTasks == s.doneTasks
              && s.doneDevices == Skipped(m) + Sum(m.children, Counted)
              && s.failedDevices == Skipped(m) + Sum(m.children, CountedFailed)
              && s.successDevices + s.failedDevices == s.doneDevices
              && s.totalDevices == Max(m.totalDevices, Max(s.doneDevices, Sum(m.children, DeviceTotal)))
              && s.status == StatusOf(m)
  {
    s := Snapshot(Success, 0, 0, 0, 0, 0, 0, 0, 0);
    var totalTasks := Max(m.totalTasks, |m.children|);
    if totalTasks <= 0 || |m.children| < totalTasks {
      return false, s;
    }
    var doneTasks, successTasks, failedTasks, done, success, failed, planned;
    ready, doneTasks, successTasks, failedTasks, done, success, failed, planned := CountChildren(m.children);
    if !ready {
      return;
    }
    var skipped := Max(0, m.skipped);
    var doneDevices, failedDevices := skipped + done, skipped + failed;
    var totalDevices := Max(m.totalDevices, Max(doneDevices, planned));
    var status := if m.cancelled then Stopped else if failedDevices > 0 then Failed else Success;
    s := Snapshot(status, totalTasks, doneTasks, successTasks, failedTasks,
                  totalDevices, doneDevices, success, failedDevices);
  }

  /** Of a child's devices: what it reports, with the devices it does not report counted as its own outcome is. */
  lemma CountedExactly(c: Child)
    ensures var planned := if c.planned < 1 then 1 else c.planned;
            match c.result
            case Details(success, failed) =>
              var s, f := if success < 0 then 0 else success, if failed < 0 then 0 else failed;
              var missing := if s + f < planned then planned - s - f else 0;
              Counted(c) == s + f + missing && CountedFailed(c) == if f > 0 then f + missing else 0
            case Flag(ok) => Counted(c) == planned && CountedFailed(c) == if ok then 0 else planned
            case ErrorText => Counted(c) == planned && CountedFailed(c) == planned
            case Plain => Counted(c) == planned && CountedFailed(c) == 0
  {
  }

  // ---------------------------------------------------------------- conservation

  predicate OverReports(c: Child) {
    Reported(c) > DeviceTotal(c)
  }

  lemma PlannedOfChild(c: Child)
    ensures Counted(c) >= DeviceTotal(c)
    ensures Counted(c) == DeviceTotal(c) <==> !OverReports(c)
  {
  }

  lemma {:induction false} DoneAtLeastPlanned(children: seq<Child>)
    ensures Sum(children, Counted) >= Sum(children, DeviceTotal)
    ensures Sum(children, Counted) == Sum(children, DeviceTotal) <==> forall c | c in children :: !OverReports(c)
    decreases |children|
  {
    if children != [] {
      var k := |children| - 1;
      DoneAtLeastPlanned(children[..k]);
      PlannedOfChild(children[k]);
      assert forall c :: c in children <==> c in children[..k] || c == children[k];
      assert children[k] in children;
    }
  }

  lemma FailedOfChild(c: Child)
    ensures 0 <= CountedFailed(c) <= Counted(c)
    ensures CountedFailed(c) == 0 <==> TaskSucceeds(c)
  {
  }

  lemma {:induction false} FailedWithinDone(children: seq<Child>)
    ensures 0 <= Sum(children, CountedFailed) <= Sum(children, Counted)
    ensures Sum(children, CountedFailed) == 0 <==> forall c | c in children :: TaskSucceeds(c)
    decreases |children|
  {
    if children != [] {
      var k := |children| - 1;
      FailedWithinDone(children[..k]);
      FailedOfChild(children[k]);
      assert forall c :: c in children <==> c in children[..k] || c == children[k];
    }
  }

  /** The devices done are the skipped ones and the planned ones exactly when no child reports more than was planned. */
  lemma DevicesConserved(m: LotMeta)
    ensures Skipped(m) + Sum(m.children, Counted) >= Skipped(m) + Sum(m.children, DeviceTotal)
    ensures Skipped(m) + Sum(m.children, Counted) == Skipped(m) + Sum(m.children, DeviceTotal)
       <==> forall c | c in m.children :: !OverReports(c)
  {
    DoneAtLeastPlanned(m.children);
  }

  /** A cancelled lot is stopped; another is a success exactly when nothing was skipped and every task succeeded. */
  lemma SuccessMeansAll(m: LotMeta)
    ensures StatusOf(m) == Stopped <==> m.cancelled
    ensures StatusOf(m) == Success <==>
              !m.cancelled && Skipped(m) == 0 && forall c | c in m.children :: TaskSucceeds(c)
    ensures Skipped(m) + Sum(m.children, CountedFailed) > 0
       <==> Skipped(m) > 0 || exists c | c in m.children :: !TaskSucceeds(c)
  {
    FailedWithinDone(m.children);
  }

  // ---------------------------------------------------------------- results that no check can read yet

  /**
   * A child that ended: its result, and whether that is in the child's meta or has been stored as the task's return
   * value. A task that gives its result only by returning it ends, and makes its own check, before it is stored.
   */
  datatype Ended = Ended(planned: int, result: ChildResult, inMeta: bool, returned: bool)

  /** _bulk_child_result: a result stored nowhere reads as an empty one. */
  function Seen(t: Ended): Child {
    Child(true, t.planned, if t.inMeta || t.returned then t.result else Plain)
  }

  function Real(t: Ended): Child {
    Child(true, t.planned, t.result)
  }

  /** The task failed and no check can know it. */
  predicate Unheard(t: Ended) {
    !TaskSucceeds(Real(t)) && TaskSucceeds(Seen(t))
  }

  function Children(tasks: seq<Ended>, read: Ended -> Child): (children: seq<Child>)
    ensures |children| == |tasks| && forall i | 0 <= i < |tasks| :: children[i] == read(tasks[i])
  {
    seq(|tasks|, i requires 0 <= i < |tasks| => read(tasks[i]))
  }

  lemma UnheardExactly(t: Ended)
    ensures Unheard(t) <==> !TaskSucceeds(Real(t)) && !t.inMeta && !t.returned
    ensures TaskSucceeds(Real(t)) ==> TaskSucceeds(Seen(t))
  {
  }

  lemma SomeChild(tasks: seq<Ended>, read: Ended -> Child)
    ensures (forall c | c in Children(tasks, read) :: TaskSucceeds(c))
       <==> (forall t | t in tasks :: TaskSucceeds(read(t)))
  {
    var children := Children(tasks, read);
    forall t | t in tasks ensures read(t) in children {
      var i :| 0 <= i < |tasks| && tasks[i] == t;
      assert children[i] == read(t);
    }
    forall c | c in children ensures exists t | t in tasks :: read(t) == c {
      var i :| 0 <= i < |children| && children[i] == c;
      assert tasks[i] in tasks;
    }
  }

  /**
   * The written status is wrong exactly when some task failed, nothing else says so, and each task that failed is
   * unheard: a failed lot is then written as a success.
   */
  lemma StatusWrongExactly(tasks: seq<Ended>, m: LotMeta)
    ensures var written := StatusOf(m.(children := Children(tasks, Seen)));
            var actual := StatusOf(m.(children := Children(tasks, Real)));
            && (written != actual <==>
                  && !m.cancelled && Skipped(m) == 0
                  && (exists t | t in tasks :: Unheard(t))
                  && (forall t | t in tasks && !TaskSucceeds(Real(t)) :: Unheard(t)))
            && (written != actual ==> written == Success && actual == Failed)
  {
    FailedWithinDone(Children(tasks, Seen));
    FailedWithinDone(Children(tasks, Real));
    SomeChild(tasks, Seen);
    SomeChild(tasks, Real);
    assert forall t | t in tasks :: TaskSucceeds(Real(t)) ==> TaskSucceeds(Seen(t));
  }

  /** A group task's exits with counts store their result in its meta; an error is only returned. */
  function EndedGroup(r: GroupRun.GroupResult, planned: int, returned: bool): Ended {
    match r
    case Counts(total, success, failed, details, exit) => Ended(planned, Details(success, failed), true, returned)
    case ErrorOnly => Ended(planned, ErrorText, false, returned)
  }

  /**
   * A group task that ran at most the devices it was planned with reports no more than planned, however it ended:
   * it counts exactly its planned devices. If it crashed, they count as failed once its error is stored, and before
   * that, as in its own check, as succeeded.
   */
  method GroupChildConserved(usable: bool, runs: seq<GroupRun.Attempt>, stopAtStart: bool, trouble: GroupRun.Trouble,
                             planned: nat, returned: bool)
    returns (c: Child)
    requires |runs| <= planned && 1 <= planned
    ensures c.planned == planned && !OverReports(c) && Counted(c) == planned
    ensures usable && trouble == GroupRun.NoTrouble && |runs| == planned && !stopAtStart ==>
              CountedFailed(c) == planned - GroupRun.Oks(runs[..GroupRun.Processed(runs)])
    ensures !usable || trouble == GroupRun.Crash ==> CountedFailed(c) == if returned then planned else 0
  {
    var r := GroupRun.RunGroup(usable, runs, stopAtStart, trouble);
    c := Seen(EndedGroup(r, planned, returned));
  }

  /** A lot whose only group crashed is written as a success by that group's own check. */
  lemma CrashedLotSucceeds(planned: nat)
    ensures var t := EndedGroup(GroupRun.ErrorOnly, planned, false);
            && StatusOf(LotMeta(Children([t], Seen), 1, planned, 0, false)) == Success
            && StatusOf(LotMeta(Children([t], Real), 1, planned, 0, false)) == Failed
  {
    var t := EndedGroup(GroupRun.ErrorOnly, planned, false);
    assert t in [t] && Unheard(t);
    StatusWrongExactly([t], LotMeta([], 1, planned, 0, false));
  }
}
