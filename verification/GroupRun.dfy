/** The device loops of run_vpn_group_backups_task and its exits, app/tasks/backups.py. */
module GroupRun {

  /** One device: was a stop requested before it, and did its backup succeed (a deadline counts as failure). */
  datatype Attempt = Attempt(stop: bool, ok: bool)

  datatype Exit = Success | Failed | Stopped

  /** VpnFailure is a VpnError, Crash any other exception; both may come at any point of the run. */
  datatype Trouble = NoTrouble | VpnFailure | Crash

  /** A group's result: the counts with one detail line per device processed, or an error text alone. */
  datatype GroupResult =
    | Counts(total: nat, success: nat, failed: nat, details: nat, exit: Exit)
    | ErrorOnly

  /** How many devices are processed: those before the first stop. */
  function Processed(runs: seq<Attempt>): (n: nat)
    ensures n <= |runs|
    ensures forall i | 0 <= i < n :: !runs[i].stop
    ensures n < |runs| ==> runs[n].stop
  {
    if runs == [] || runs[0].stop then 0 else 1 + Processed(runs[1..])
  }

  function Oks(runs: seq<Attempt>): (n: nat)
    ensures n <= |runs|
  {
    if runs == [] then 0
    else Oks(runs[..|runs| - 1]) + (if runs[|runs| - 1].ok then 1 else 0)
  }

  function ExitOf(cancelled: bool, failed: nat): Exit {
    if cancelled then Stopped else if failed == 0 then Success else Failed
  }

  /** The loop over the devices of an open session (or of a group without VPN). */
  method LoopDevices(runs: seq<Attempt>) returns (success: nat, failed: nat, details: nat, cancelled: bool)
    ensures success + failed == |runs|
    ensures success == Oks(runs[..Processed(runs)])
    ensures cancelled <==> exists i | 0 <= i < |runs| :: runs[i].stop
    ensures details == Processed(runs) + (if cancelled then 1 else 0)
  {
    success, failed, details, cancelled := 0, 0, 0, false;
    var processed := 0;
    for i := 0 to |runs|
      invariant processed == i == details && success + failed == i && !cancelled
      invariant success == Oks(runs[..i])
      invariant forall j | 0 <= j < i :: !runs[j].stop
    {
      assert runs[..i + 1][..i] == runs[..i];
      if runs[i].stop {
        cancelled := true;
        var remaining := |runs| - processed;
        failed := failed + (if remaining > 0 then remaining else 0);
        details := details + 1;
        break;
      }
      if runs[i].ok {
        success := success + 1;
      } else {
        failed := failed + 1;
      }
      processed := processed + 1;
      details := details + 1;
    }
    assert processed == Processed(runs);
  }

  /** The whole group task, for the devices the group's query returned; a missing or inactive group is not usable. */
  method RunGroup(usable: bool, runs: seq<Attempt>, stopAtStart: bool, trouble: Trouble) returns (r: GroupResult)
    ensures r.ErrorOnly? <==> !usable || trouble == Crash
    ensures r.Counts? ==> r.success + r.failed == r.total
    ensures usable && trouble == NoTrouble ==>
              r.Counts? && r.total == |runs| && r.success == (if stopAtStart then 0 else Oks(runs[..Processed(runs)]))
    ensures usable && trouble == VpnFailure ==> r.Counts? && r.failed == r.total == (if runs == [] then 1 else |runs|)
    ensures usable && trouble == NoTrouble && runs != [] ==>
              r.exit == if stopAtStart || exists i | 0 <= i < |runs| :: runs[i].stop then Stopped
                        else if r.failed > 0 then Failed else Success
    ensures usable && trouble == NoTrouble && runs == [] ==> r.exit == Success
    ensures usable && trouble == VpnFailure ==> r.exit == Failed && r.details == r.total
    ensures usable && trouble == NoTrouble ==>
              r.details == if runs == [] then 0 else if stopAtStart then 1
                           else Processed(runs) + (if exists i | 0 <= i < |runs| :: runs[i].stop then 1 else 0)
  {
    if !usable || trouble == Crash {
      return ErrorOnly;
    }
    if trouble == VpnFailure {
      var failedTotal := if runs != [] then |runs| else 1;
      return Counts(failedTotal, 0, failedTotal, failedTotal, Failed);
    }
    if runs == [] {
      return Counts(0, 0, 0, 0, Success);
    }
    if stopAtStart {
      return Counts(|runs|, 0, |runs|, 1, Stopped);
    }
    var success, failed, details, cancelled := LoopDevices(runs);
    r := Counts(|runs|, success, failed, details, ExitOf(cancelled, failed));
  }
}
