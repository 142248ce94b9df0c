/**
 * What the two phase callbacks of app/tasks/backups.py enqueue from their payloads:
 * enqueue_jump_and_vpn_after_direct_phase_task and enqueue_vpn_groups_after_direct_phase_task.
 */
module PhaseCallbacks {
  import opened Text
  import opened PhasePayload
  import Interleave

  // ---------------------------------------------------------------- what a callback makes of its payload

  datatype JumpEntry = JumpEntry(deviceId: nat, groupId: string)

  /** The check both callbacks make before they enqueue a group. */
  predicate Enqueueable(g: PhaseGroup) {
    Strip(g.groupId) != [] && g.deviceIds != []
  }

  function DeviceIds(entries: seq<JumpEntry>): seq<nat> {
    seq(|entries|, i requires 0 <= i < |entries| => entries[i].deviceId)
  }

  function AddUnseen(entries: seq<JumpEntry>, groupId: string, ids: seq<nat>): seq<JumpEntry> {
    if ids == [] then entries
    else
      var k := |ids| - 1;
      var before := AddUnseen(entries, groupId, ids[..k]);
      if ids[k] in DeviceIds(before) then before else before + [JumpEntry(ids[k], groupId)]
  }

  /** The Jump Host devices to enqueue: those of the groups that pass the check, each once. */
  function JumpEntries(payload: seq<PhaseGroup>): seq<JumpEntry> {
    if payload == [] then []
    else
      var k := |payload| - 1;
      var before, g := JumpEntries(payload[..k]), payload[k];
      if Enqueueable(g) then AddUnseen(before, Strip(g.groupId), SortedSet(g.deviceIds)) else before
  }

  method CollectJumpEntries(payload: seq<PhaseGroup>) returns (entries: seq<JumpEntry>)
    ensures entries == JumpEntries(payload)
  {
    entries := [];
    var seen: set<nat> := {};
    for i := 0 to |payload|
      invariant entries == JumpEntries(payload[..i])
      invariant forall id :: id in seen <==> id in DeviceIds(entries)
    {
      assert payload[..i + 1][..i] == payload[..i];
      var groupId := Strip(payload[i].groupId);
      var deviceIds := SortedSet(payload[i].deviceIds);
      SortedSetShape(payload[i].deviceIds);
      SameEmptiness(deviceIds, payload[i].deviceIds);
      if groupId == [] || deviceIds == [] {
        continue;
      }
      ghost var before := entries;
      for j := 0 to |deviceIds|
        invariant entries == AddUnseen(before, groupId, deviceIds[..j])
        invariant forall id :: id in seen <==> id in DeviceIds(entries)
      {
        assert deviceIds[..j + 1][..j] == deviceIds[..j];
        if deviceIds[j] in seen {
          continue;
        }
        seen := seen + {deviceIds[j]};
        AppendedIds(entries, JumpEntry(deviceIds[j], groupId));
        entries := entries + [JumpEntry(deviceIds[j], groupId)];
      }
      assert deviceIds[..|deviceIds|] == deviceIds;
    }
    assert payload[..|payload|] == payload;
  }

  lemma SameEmptiness(a: seq<nat>, b: seq<nat>)
    requires forall x :: x in a <==> x in b
    ensures a == [] <==> b == []
  {
    assert a != [] ==> a[0] in b;
    assert b != [] ==> b[0] in a;
  }

  lemma AppendedIds(entries: seq<JumpEntry>, e: JumpEntry)
    ensures DeviceIds(entries + [e]) == DeviceIds(entries) + [e.deviceId]
  {
  }

  /** The VPN groups a callback launches. */
  function VpnLaunches(payload: seq<PhaseGroup>): seq<PhaseGroup> {
    if payload == [] then []
    else
      var k := |payload| - 1;
      VpnLaunches(payload[..k]) + (if Enqueueable(payload[k]) then [payload[k]] else [])
  }

  method ChooseVpnGroups(payload: seq<PhaseGroup>) returns (launched: seq<PhaseGroup>)
    ensures launched == VpnLaunches(payload)
  {
    launched := [];
    for i := 0 to |payload|
      invariant launched == VpnLaunches(payload[..i])
    {
      assert payload[..i + 1][..i] == payload[..i];
      var item := payload[i];
      SortedSetShape(item.deviceIds);
      SameEmptiness(SortedSet(item.deviceIds), item.deviceIds);
      if Strip(item.groupId) == [] || SortedSet(item.deviceIds) == [] {
        continue;
      }
      launched := launched + [item];
    }
    assert payload[..|payload|] == payload;
  }

  lemma {:induction false} AddUnseenShape(entries: seq<JumpEntry>, groupId: string, ids: seq<nat>)
    ensures var r := AddUnseen(entries, groupId, ids);
            && |r| <= |entries| + |ids|
            && (NoDup(DeviceIds(entries)) ==> NoDup(DeviceIds(r)))
            && (forall x :: x in DeviceIds(r) <==> x in DeviceIds(entries) || x in ids)
    decreases |ids|
  {
    if ids != [] {
      var k := |ids| - 1;
      var before := AddUnseen(entries, groupId, ids[..k]);
      AddUnseenShape(entries, groupId, ids[..k]);
      assert forall x :: x in ids <==> x in ids[..k] || x == ids[k];
      AppendedIds(before, JumpEntry(ids[k], groupId));
      NoDupConcat(DeviceIds(before), [ids[k]]);
    }
  }

  lemma {:induction false} AddUnseenSize(entries: seq<JumpEntry>, groupId: string, ids: seq<nat>)
    ensures |AddUnseen(entries, groupId, ids)| == |entries| + |ids|
       <==> NoDup(ids) && forall x :: !(x in ids && x in DeviceIds(entries))
    decreases |ids|
  {
    if ids != [] {
      var k := |ids| - 1;
      AddUnseenSize(entries, groupId, ids[..k]);
      AddUnseenShape(entries, groupId, ids[..k]);
      assert forall x :: x in ids <==> x in ids[..k] || x == ids[k];
    }
  }

  /** Every device of a group that passes the check is enqueued, and none twice. */
  lemma {:induction false} JumpEntriesShape(payload: seq<PhaseGroup>)
    ensures NoDup(DeviceIds(JumpEntries(payload)))
    ensures forall x :: x in DeviceIds(JumpEntries(payload))
                   <==> exists g | g in payload :: Enqueueable(g) && x in g.deviceIds
    decreases |payload|
  {
    if payload != [] {
      var k := |payload| - 1;
      var before, g := JumpEntries(payload[..k]), payload[k];
      JumpEntriesShape(payload[..k]);
      assert forall h :: h in payload <==> h in payload[..k] || h == g;
      AddUnseenShape(before, Strip(g.groupId), SortedSet(g.deviceIds));
      SortedSetShape(g.deviceIds);
    }
  }

  /** A payload as the planner makes it: no device twice, and no device in a group that fails the check. */
  ghost predicate WellFormedJump(payload: seq<PhaseGroup>) {
    NoDup(AllIds(payload)) && forall g | g in payload :: Enqueueable(g) || g.deviceIds == []
  }

  lemma {:induction false} AllIdsHave(payload: seq<PhaseGroup>, x: nat)
    ensures x in AllIds(payload) <==> exists g | g in payload :: x in g.deviceIds
    decreases |payload|
  {
    if payload != [] {
      var k := |payload| - 1;
      AllIdsHave(payload[..k], x);
      assert forall h :: h in payload <==> h in payload[..k] || h == payload[k];
    }
  }

  /** One more group: what it adds to the entries, and when that is all of its devices. */
  lemma GroupAdds(before: seq<JumpEntry>, known: seq<nat>, groupId: string, ids: seq<nat>)
    requires |before| <= |known|
    requires |before| == |known| ==> forall x :: x in DeviceIds(before) <==> x in known
    ensures var r := AddUnseen(before, groupId, SortedSet(ids));
            && |r| <= |known| + |ids|
            && (|r| == |known| + |ids| <==> |before| == |known| && NoDup(ids) && forall x :: !(x in known && x in ids))
  {
    SortedSetShape(ids);
    AddUnseenShape(before, groupId, SortedSet(ids));
    AddUnseenSize(before, groupId, SortedSet(ids));
    RisingNoDup(SortedSet(ids));
  }

  lemma WellFormedHas(payload: seq<PhaseGroup>)
    requires WellFormedJump(payload)
    ensures forall x :: x in DeviceIds(JumpEntries(payload)) <==> x in AllIds(payload)
  {
    JumpEntriesShape(payload);
    forall x ensures x in DeviceIds(JumpEntries(payload)) <==> x in AllIds(payload) {
      AllIdsHave(payload, x);
    }
  }

  /** Never more devices are enqueued than planned, and as many exactly when the payload is well formed. */
  lemma {:induction false} JumpEntriesSize(payload: seq<PhaseGroup>)
    ensures |JumpEntries(payload)| <= |AllIds(payload)|
    ensures |JumpEntries(payload)| == |AllIds(payload)| <==> WellFormedJump(payload)
    decreases |payload|
  {
    if payload != [] {
      var k := |payload| - 1;
      var before, g := payload[..k], payload[k];
      JumpEntriesSize(before);
      if WellFormedJump(before) {
        WellFormedHas(before);
      }
      GroupAdds(JumpEntries(before), AllIds(before), Strip(g.groupId), g.deviceIds);
      assert forall h :: h in payload <==> h in before || h == g;
      NoDupConcat(AllIds(before), g.deviceIds);
      assert NoDup<nat>([]);
    }
  }

  lemma {:induction false} VpnLaunchesSize(payload: seq<PhaseGroup>)
    ensures |VpnLaunches(payload)| <= |payload|
    ensures |VpnLaunches(payload)| == |payload| <==> forall g | g in payload :: Enqueueable(g)
    decreases |payload|
  {
    if payload != [] {
      var k := |payload| - 1;
      VpnLaunchesSize(payload[..k]);
      assert forall h :: h in payload <==> h in payload[..k] || h == payload[k];
    }
  }

  /** Dealing the devices over their bastions enqueues each of them exactly once. */
  lemma EnqueuedOnce(payload: seq<PhaseGroup>, bastionOf: JumpEntry -> string, step: nat)
    ensures var entries := JumpEntries(payload);
            var ordered := Interleave.Deal(entries, bastionOf, Interleave.Pace(step));
            && |ordered| == |entries|
            && multiset(Interleave.ItemsOf(ordered)) == multiset(entries)
            && NoDup(DeviceIds(entries))
  {
    var entries := JumpEntries(payload);
    JumpEntriesShape(payload);
    Interleave.DealIsPermutation(entries, bastionOf, Interleave.Pace(step));
    var items := Interleave.ItemsOf(Interleave.Deal(entries, bastionOf, Interleave.Pace(step)));
    assert |multiset(items)| == |items| && |multiset(entries)| == |entries|;
  }

  lemma {:induction false} AddUnseenGroups(entries: seq<JumpEntry>, groupId: string, ids: seq<nat>)
    ensures forall e | e in AddUnseen(entries, groupId, ids) ::
              e in entries || (e.groupId == groupId && e.deviceId in ids)
    decreases |ids|
  {
    if ids != [] {
      AddUnseenGroups(entries, groupId, ids[..|ids| - 1]);
    }
  }

  /** A device is enqueued under a group of the payload that has it. */
  lemma {:induction false} EntriesKeepGroups(payload: seq<PhaseGroup>, e: JumpEntry)
    requires e in JumpEntries(payload)
    ensures exists g | g in payload :: Enqueueable(g) && e.groupId == Strip(g.groupId) && e.deviceId in g.deviceIds
    decreases |payload|
  {
    if payload != [] {
      var k := |payload| - 1;
      var before, g := JumpEntries(payload[..k]), payload[k];
      if e in before {
        EntriesKeepGroups(payload[..k], e);
        var h :| h in payload[..k] && Enqueueable(h) && e.groupId == Strip(h.groupId) && e.deviceId in h.deviceIds;
        assert h in payload;
      } else {
        AddUnseenGroups(before, Strip(g.groupId), SortedSet(g.deviceIds));
        SortedSetShape(g.deviceIds);
        assert g in payload;
      }
    }
  }

  /** Exactly the acceptable groups are launched. */
  lemma {:induction false} VpnLaunchesHave(payload: seq<PhaseGroup>, g: PhaseGroup)
    ensures g in VpnLaunches(payload) <==> g in payload && Enqueueable(g)
    decreases |payload|
  {
    if payload != [] {
      var k := |payload| - 1;
      VpnLaunchesHave(payload[..k], g);
      assert g in payload <==> g in payload[..k] || g == payload[k];
    }
  }
}
