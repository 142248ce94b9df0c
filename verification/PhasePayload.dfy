/**
 * How a lot's devices are split by route and grouped: the planning part of
 * run_bulk_transient_followup_task and its helpers, app/tasks/backups.py.
 */
module PhasePayload {
  import opened Wrappers
  import opened Text
  import opened ConnectionMode
  import Interleave

  /** A device to back up; `id` is its UUID read as a number, which keeps the order of the UUID texts. */
  datatype Target = Target(id: nat, group: Option<Group>, device: Device)

  datatype PhaseGroup = PhaseGroup(groupId: string, deviceIds: seq<nat>)

  datatype Route = ByVpn | ByJump | ByGroup | Alone

  // ---------------------------------------------------------------- sorted(set(ids))

  function Insert(x: nat, ids: seq<nat>): seq<nat> {
    if ids == [] || x < ids[0] then [x] + ids
    else if x == ids[0] then ids
    else [ids[0]] + Insert(x, ids[1..])
  }

  function SortedSet(ids: seq<nat>): seq<nat> {
    if ids == [] then [] else Insert(ids[|ids| - 1], SortedSet(ids[..|ids| - 1]))
  }

  ghost predicate Rising(ids: seq<nat>) {
    ids == [] || ((forall y | y in ids[1..] :: ids[0] < y) && Rising(ids[1..]))
  }

  ghost predicate NoDup<T>(s: seq<T>) {
    s == [] || (s[|s| - 1] !in s[..|s| - 1] && NoDup(s[..|s| - 1]))
  }

  lemma {:induction false} InsertShape(x: nat, ids: seq<nat>)
    requires Rising(ids)
    ensures Rising(Insert(x, ids))
    ensures forall y :: y in Insert(x, ids) <==> y == x || y in ids
    ensures |Insert(x, ids)| == |ids| + (if x in ids then 0 else 1)
    decreases |ids|
  {
    if ids != [] && x > ids[0] {
      InsertShape(x, ids[1..]);
      assert Insert(x, ids)[1..] == Insert(x, ids[1..]);
    }
    assert ids != [] ==> forall y :: y in ids <==> y == ids[0] || y in ids[1..];
  }

  lemma {:induction false} SortedSetShape(ids: seq<nat>)
    ensures Rising(SortedSet(ids))
    ensures forall y :: y in SortedSet(ids) <==> y in ids
    ensures |SortedSet(ids)| <= |ids|
    ensures |SortedSet(ids)| == |ids| <==> NoDup(ids)
    decreases |ids|
  {
    if ids != [] {
      var k := |ids| - 1;
      var rest := SortedSet(ids[..k]);
      SortedSetShape(ids[..k]);
      InsertShape(ids[k], rest);
      assert forall y :: y in ids <==> y in ids[..k] || y == ids[k];
    }
  }

  lemma {:induction false} NoDupConcat<T>(a: seq<T>, b: seq<T>)
    ensures NoDup(a + b) <==> NoDup(a) && NoDup(b) && forall x :: !(x in a && x in b)
    decreases |b|
  {
    if b == [] {
      assert a + b == a;
    } else {
      var k := |b| - 1;
      NoDupConcat(a, b[..k]);
      assert (a + b)[..|a + b| - 1] == a + b[..k];
      assert forall x :: x in b <==> x in b[..k] || x == b[k];
    }
  }

  lemma {:induction false} RisingNoDup(ids: seq<nat>)
    requires Rising(ids)
    ensures NoDup(ids)
    decreases |ids|
  {
    if ids != [] {
      RisingNoDup(ids[1..]);
      NoDupConcat([ids[0]], ids[1..]);
      assert ids == [ids[0]] + ids[1..];
    }
  }

  // ---------------------------------------------------------------- routes and buckets

  function RouteOf(t: Target): Route {
    if t.group.Some? && UsesVpnTunnel(t.group, Some(t.device)) then ByVpn
    else if t.group.Some? && UsesJumpHost(t.group, Some(t.device)) then ByJump
    else if t.group.Some? then ByGroup
    else Alone
  }

  function GroupKey(t: Target): string {
    if t.group.Some? then t.group.value.id else ""
  }

  function OnRoute(targets: seq<Target>, route: Route): seq<Target> {
    if targets == [] then []
    else
      var k := |targets| - 1;
      OnRoute(targets[..k], route) + (if RouteOf(targets[k]) == route then [targets[k]] else [])
  }

  function Ids(targets: seq<Target>): seq<nat> {
    seq(|targets|, i requires 0 <= i < |targets| => targets[i].id)
  }

  /** The payload entry of one group, none when it has no device. */
  function GroupEntry(targets: seq<Target>, key: string, stripped: bool): seq<PhaseGroup> {
    var ids := SortedSet(Ids(Interleave.Only(targets, GroupKey, key)));
    if ids == [] then [] else [PhaseGroup(if stripped then Strip(key) else key, ids)]
  }

  /** The payload entries of the groups listed. */
  function GroupsOf(targets: seq<Target>, keys: seq<string>, stripped: bool): seq<PhaseGroup> {
    if keys == [] then []
    else GroupsOf(targets, keys[..|keys| - 1], stripped) + GroupEntry(targets, keys[|keys| - 1], stripped)
  }

  /** One entry per group of the targets, with its device ids sorted and without repetition. */
  function Grouped(targets: seq<Target>, stripped: bool): seq<PhaseGroup> {
    GroupsOf(targets, Interleave.Bastions(targets, GroupKey), stripped)
  }

  /** The same as a planner writes it, with the group ids stripped. */
  function Payload(targets: seq<Target>): seq<PhaseGroup> {
    Grouped(targets, true)
  }

  function AllIds(payload: seq<PhaseGroup>): seq<nat> {
    if payload == [] then []
    else AllIds(payload[..|payload| - 1]) + payload[|payload| - 1].deviceIds
  }

  method BuildPayload(targets: seq<Target>, stripped: bool) returns (payload: seq<PhaseGroup>)
    ensures payload == Grouped(targets, stripped)
  {
    var keys, buckets := Interleave.FillBuckets(targets, GroupKey);
    payload := [];
    for i := 0 to |keys|
      invariant payload == GroupsOf(targets, keys[..i], stripped)
    {
      assert keys[..i + 1][..i] == keys[..i];
      assert keys[i] in keys;
      var ids := SortedSet(Ids(buckets[keys[i]]));
      if ids == [] {
        continue;
      }
      payload := payload + [PhaseGroup(if stripped then Strip(keys[i]) else keys[i], ids)];
    }
    assert keys[..|keys|] == keys;
  }

  method SplitByRoute(targets: seq<Target>)
    returns (vpn: seq<Target>, jump: seq<Target>, direct: seq<Target>, alone: seq<Target>)
    ensures vpn == OnRoute(targets, ByVpn) && jump == OnRoute(targets, ByJump)
    ensures direct == OnRoute(targets, ByGroup) && alone == OnRoute(targets, Alone)
  {
    vpn, jump, direct, alone := [], [], [], [];
    for i := 0 to |targets|
      invariant vpn == OnRoute(targets[..i], ByVpn) && jump == OnRoute(targets[..i], ByJump)
      invariant direct == OnRoute(targets[..i], ByGroup) && alone == OnRoute(targets[..i], Alone)
    {
      assert targets[..i + 1][..i] == targets[..i];
      var t := targets[i];
      if t.group.Some? && UsesVpnTunnel(t.group, Some(t.device)) {
        vpn := vpn + [t];
        continue;
      }
      if t.group.Some? && UsesJumpHost(t.group, Some(t.device)) {
        jump := jump + [t];
        continue;
      }
      if t.group.Some? {
        direct := direct + [t];
      } else {
        alone := alone + [t];
      }
    }
    assert targets[..|targets|] == targets;
  }

  // ---------------------------------------------------------------- every device is planned exactly once

  lemma {:induction false} NoDupAt<T>(s: seq<T>, i: nat, j: nat)
    requires NoDup(s) && i < |s| && j < |s| && i != j
    ensures s[i] != s[j]
    decreases |s|
  {
    var k := |s| - 1;
    if i < k && j < k {
      NoDupAt(s[..k], i, j);
    } else {
      assert s[if i == k then j else i] in s[..k];
    }
  }

  lemma SameTarget(targets: seq<Target>, a: Target, b: Target)
    requires NoDup(Ids(targets)) && a in targets && b in targets && a.id == b.id
    ensures a == b
  {
    var i :| 0 <= i < |targets| && targets[i] == a;
    var j :| 0 <= j < |targets| && targets[j] == b;
    if i != j {
      NoDupAt(Ids(targets), i, j);
    }
  }

  ghost predicate HasId(targets: seq<Target>, x: nat) {
    exists t | t in targets :: t.id == x
  }

  lemma IdsHave(targets: seq<Target>, x: nat)
    ensures x in Ids(targets) <==> HasId(targets, x)
  {
    if x in Ids(targets) {
      var i :| 0 <= i < |targets| && Ids(targets)[i] == x;
      assert targets[i] in targets;
    }
    if HasId(targets, x) {
      var t :| t in targets && t.id == x;
      var i :| 0 <= i < |targets| && targets[i] == t;
      assert Ids(targets)[i] == x;
    }
  }

  /** x is the id of a target whose group is listed. */
  ghost predicate Listed(targets: seq<Target>, keys: seq<string>, x: nat) {
    exists t | t in targets :: t.id == x && GroupKey(t) in keys
  }

  lemma BucketHas(targets: seq<Target>, key: string, x: nat)
    ensures x in SortedSet(Ids(Interleave.Only(targets, GroupKey, key))) <==> Listed(targets, [key], x)
  {
    var own := Interleave.Only(targets, GroupKey, key);
    SortedSetShape(Ids(own));
    IdsHave(own, x);
    Interleave.OnlyShape(targets, GroupKey, key);
    if Listed(targets, [key], x) {
      var t :| t in targets && t.id == x && GroupKey(t) in [key];
      Interleave.OnlyHas(targets, GroupKey, t);
      assert t in own;
    }
  }

  lemma {:induction false} AllIdsConcat(a: seq<PhaseGroup>, b: seq<PhaseGroup>)
    ensures AllIds(a + b) == AllIds(a) + AllIds(b)
    decreases |b|
  {
    if b == [] {
      assert a + b == a;
    } else {
      assert (a + b)[..|a + b| - 1] == a + b[..|b| - 1];
      AllIdsConcat(a, b[..|b| - 1]);
    }
  }

  lemma GroupsNext(targets: seq<Target>, keys: seq<string>, stripped: bool)
    requires keys != []
    ensures var k := |keys| - 1;
            AllIds(GroupsOf(targets, keys, stripped))
              == AllIds(GroupsOf(targets, keys[..k], stripped))
                 + SortedSet(Ids(Interleave.Only(targets, GroupKey, keys[k])))
  {
    var k := |keys| - 1;
    AllIdsConcat(GroupsOf(targets, keys[..k], stripped), GroupEntry(targets, keys[k], stripped));
    EntryIds(targets, keys[k], stripped);
  }

  lemma EntryIds(targets: seq<Target>, key: string, stripped: bool)
    ensures AllIds(GroupEntry(targets, key, stripped)) == SortedSet(Ids(Interleave.Only(targets, GroupKey, key)))
  {
    var entry := GroupEntry(targets, key, stripped);
    assert entry != [] ==> entry[..0] == [];
  }

  lemma {:induction false} GroupsHave(targets: seq<Target>, keys: seq<string>, stripped: bool, x: nat)
    ensures x in AllIds(GroupsOf(targets, keys, stripped)) <==> Listed(targets, keys, x)
    decreases |keys|
  {
    if keys != [] {
      var k := |keys| - 1;
      GroupsHave(targets, keys[..k], stripped, x);
      GroupsNext(targets, keys, stripped);
      BucketHas(targets, keys[k], x);
      assert forall key :: key in keys <==> key in keys[..k] || key in [keys[k]];
      assert Listed(targets, keys, x) <==> Listed(targets, keys[..k], x) || Listed(targets, [keys[k]], x);
    }
  }

  lemma {:induction false} GroupsNoDup(targets: seq<Target>, keys: seq<string>, stripped: bool)
    requires NoDup(Ids(targets)) && Interleave.Distinct(keys)
    ensures NoDup(AllIds(GroupsOf(targets, keys, stripped)))
    decreases |keys|
  {
    if keys != [] {
      var k := |keys| - 1;
      var before := AllIds(GroupsOf(targets, keys[..k], stripped));
      var own := Ids(Interleave.Only(targets, GroupKey, keys[k]));
      GroupsNoDup(targets, keys[..k], stripped);
      GroupsNext(targets, keys, stripped);
      SortedSetShape(own);
      RisingNoDup(SortedSet(own));
      forall x | x in before ensures x !in SortedSet(own) {
        GroupsHave(targets, keys[..k], stripped, x);
        BucketHas(targets, keys[k], x);
        NotInTwoGroups(targets, keys[..k], keys[k], x);
      }
      NoDupConcat(before, SortedSet(own));
    }
  }

  lemma NotInTwoGroups(targets: seq<Target>, keys: seq<string>, key: string, x: nat)
    requires NoDup(Ids(targets)) && key !in keys
    ensures !(Listed(targets, keys, x) && Listed(targets, [key], x))
  {
    if Listed(targets, keys, x) && Listed(targets, [key], x) {
      var a :| a in targets && a.id == x && GroupKey(a) in keys;
      var b :| b in targets && b.id == x && GroupKey(b) in [key];
      SameTarget(targets, a, b);
    }
  }

  /** A payload holds each of its targets' ids once and no other. */
  lemma PayloadCovers(targets: seq<Target>, stripped: bool)
    requires NoDup(Ids(targets))
    ensures NoDup(AllIds(Grouped(targets, stripped)))
    ensures forall x :: x in AllIds(Grouped(targets, stripped)) <==> x in Ids(targets)
  {
    var keys := Interleave.Bastions(targets, GroupKey);
    Interleave.BastionsDistinct(targets, GroupKey);
    GroupsNoDup(targets, keys, stripped);
    forall x ensures x in AllIds(Grouped(targets, stripped)) <==> x in Ids(targets) {
      GroupsHave(targets, keys, stripped, x);
      IdsHave(targets, x);
      forall t | t in targets ensures GroupKey(t) in keys {
        Interleave.BastionsHave(targets, GroupKey, t);
      }
    }
  }

  lemma {:induction false} OnRouteHas(targets: seq<Target>, route: Route, t: Target)
    ensures t in OnRoute(targets, route) <==> t in targets && RouteOf(t) == route
    decreases |targets|
  {
    if targets != [] {
      var k := |targets| - 1;
      OnRouteHas(targets[..k], route, t);
      assert t in targets <==> t in targets[..k] || t == targets[k];
    }
  }

  lemma OnRouteIds(targets: seq<Target>, route: Route, x: nat)
    ensures x in Ids(OnRoute(targets, route)) <==> exists t | t in targets :: t.id == x && RouteOf(t) == route
  {
    IdsHave(OnRoute(targets, route), x);
    forall t ensures t in OnRoute(targets, route) <==> t in targets && RouteOf(t) == route {
      OnRouteHas(targets, route, t);
    }
  }

  lemma AppendNoDup(before: seq<Target>, last: Target)
    requires NoDup(Ids(before)) && last.id !in Ids(before)
    ensures NoDup(Ids(before + [last]))
  {
    var ids := Ids(before + [last]);
    assert ids[..|ids| - 1] == Ids(before);
  }

  lemma {:induction false} OnRouteNoDup(targets: seq<Target>, route: Route)
    requires NoDup(Ids(targets))
    ensures NoDup(Ids(OnRoute(targets, route)))
    decreases |targets|
  {
    if targets != [] {
      var k := |targets| - 1;
      var before, last := OnRoute(targets[..k], route), targets[k];
      assert Ids(targets)[..k] == Ids(targets[..k]);
      OnRouteNoDup(targets[..k], route);
      assert last.id !in Ids(before) by {
        IdsHave(targets[..k], last.id);
        OnRouteIds(targets[..k], route, last.id);
      }
      AppendNoDup(before, last);
      assert before + [] == before;
    }
  }

  /** The ids planned on each route: direct groups, direct devices without a group, Jump Host devices, VPN groups. */
  function Planned(targets: seq<Target>, route: Route): seq<nat> {
    if route == Alone then Ids(OnRoute(targets, Alone)) else AllIds(Payload(OnRoute(targets, route)))
  }

  lemma PlannedShape(targets: seq<Target>, route: Route)
    requires NoDup(Ids(targets))
    ensures NoDup(Planned(targets, route))
    ensures forall x :: x in Planned(targets, route) <==> x in Ids(OnRoute(targets, route))
  {
    OnRouteNoDup(targets, route);
    PayloadCovers(OnRoute(targets, route), true);
  }

  lemma RoutesApart(targets: seq<Target>, r: Route, q: Route, x: nat)
    requires NoDup(Ids(targets)) && r != q
    ensures !(x in Planned(targets, r) && x in Planned(targets, q))
  {
    PlannedShape(targets, r);
    PlannedShape(targets, q);
    OnRouteIds(targets, r, x);
    OnRouteIds(targets, q, x);
    if x in Planned(targets, r) && x in Planned(targets, q) {
      var t :| t in targets && t.id == x && RouteOf(t) == r;
      var u :| u in targets && u.id == x && RouteOf(u) == q;
      SameTarget(targets, t, u);
    }
  }

  lemma OnOneRoute(targets: seq<Target>, x: nat)
    requires NoDup(Ids(targets))
    ensures !(x in Planned(targets, ByGroup) && x in Planned(targets, Alone))
    ensures !(x in Planned(targets, ByGroup) && x in Planned(targets, ByJump))
    ensures !(x in Planned(targets, ByGroup) && x in Planned(targets, ByVpn))
    ensures !(x in Planned(targets, Alone) && x in Planned(targets, ByJump))
    ensures !(x in Planned(targets, Alone) && x in Planned(targets, ByVpn))
    ensures !(x in Planned(targets, ByJump) && x in Planned(targets, ByVpn))
  {
    RoutesApart(targets, ByGroup, Alone, x);
    RoutesApart(targets, ByGroup, ByJump, x);
    RoutesApart(targets, ByGroup, ByVpn, x);
    RoutesApart(targets, Alone, ByJump, x);
    RoutesApart(targets, Alone, ByVpn, x);
    RoutesApart(targets, ByJump, ByVpn, x);
  }

  lemma RoutesCover(targets: seq<Target>, x: nat)
    requires NoDup(Ids(targets))
    ensures x in Ids(targets) <==> || x in Planned(targets, ByGroup) || x in Planned(targets, Alone)
                                   || x in Planned(targets, ByJump) || x in Planned(targets, ByVpn)
  {
    IdsHave(targets, x);
    forall r: Route
      ensures x in Planned(targets, r) <==> exists t | t in targets :: t.id == x && RouteOf(t) == r
    {
      PlannedShape(targets, r);
      OnRouteIds(targets, r, x);
    }
    if HasId(targets, x) {
      var t :| t in targets && t.id == x;
      assert x in Planned(targets, RouteOf(t));
    }
  }

  /** Every device of the lot is planned on exactly one route, exactly once there. */
  lemma EachDeviceOnce(targets: seq<Target>)
    requires NoDup(Ids(targets))
    ensures var all := Planned(targets, ByGroup) + Planned(targets, Alone)
                     + Planned(targets, ByJump) + Planned(targets, ByVpn);
            NoDup(all) && forall x :: x in all <==> x in Ids(targets)
  {
    var a, b := Planned(targets, ByGroup), Planned(targets, Alone);
    var c, d := Planned(targets, ByJump), Planned(targets, ByVpn);
    PlannedShape(targets, ByGroup);
    PlannedShape(targets, Alone);
    PlannedShape(targets, ByJump);
    PlannedShape(targets, ByVpn);
    forall x
      ensures !(x in a && x in b) && !(x in a + b && x in c) && !(x in a + b + c && x in d)
      ensures x in a + b + c + d <==> x in Ids(targets)
    {
      OnOneRoute(targets, x);
      RoutesCover(targets, x);
    }
    NoDupOfFour(a, b, c, d);
  }

  lemma NoDupOfFour(a: seq<nat>, b: seq<nat>, c: seq<nat>, d: seq<nat>)
    requires NoDup(a) && NoDup(b) && NoDup(c) && NoDup(d)
    requires forall x :: !(x in a && x in b) && !(x in a + b && x in c) && !(x in a + b + c && x in d)
    ensures NoDup(a + b + c + d)
  {
    NoDupConcat(a, b);
    NoDupConcat(a + b, c);
    NoDupConcat(a + b + c, d);
  }

  // ---------------------------------------------------------------- routes and entries in the planner's own terms

  /** The route by group and effective mode; only devices of a group are deferred. */
  lemma RouteExactly(t: Target)
    ensures RouteOf(t) == Alone <==> t.group.None?
    ensures RouteOf(t) == ByVpn <==> t.group.Some? && EffectiveMode(t.group, Some(t.device)) == Vpn
    ensures RouteOf(t) == ByJump <==> t.group.Some? && EffectiveMode(t.group, Some(t.device)) == JumpHost
    ensures RouteOf(t) == ByGroup <==> t.group.Some? && EffectiveMode(t.group, Some(t.device)) !in {Vpn, JumpHost}
  {
  }

  /** The entry holds the ids of exactly the targets with this group key, rising. */
  ghost predicate IsEntry(g: PhaseGroup, targets: seq<Target>, key: string, stripped: bool) {
    && g.groupId == (if stripped then Strip(key) else key) && Rising(g.deviceIds)
    && forall x :: x in g.deviceIds <==> exists t | t in targets :: t.id == x && GroupKey(t) == key
  }

  ghost predicate HasKey(targets: seq<Target>, key: string) {
    exists t | t in targets :: GroupKey(t) == key
  }

  lemma EntryOf(targets: seq<Target>, key: string, stripped: bool) returns (g: PhaseGroup)
    requires HasKey(targets, key)
    ensures GroupEntry(targets, key, stripped) == [g] && IsEntry(g, targets, key, stripped)
  {
    var own := Interleave.Only(targets, GroupKey, key);
    SortedSetShape(Ids(own));
    forall x ensures x in SortedSet(Ids(own)) <==> exists u | u in targets :: u.id == x && GroupKey(u) == key {
      BucketHas(targets, key, x);
    }
    var t :| t in targets && GroupKey(t) == key;
    assert t.id in SortedSet(Ids(own));
    g := GroupEntry(targets, key, stripped)[0];
  }

  ghost predicate AreEntries(payload: seq<PhaseGroup>, targets: seq<Target>, keys: seq<string>, stripped: bool) {
    |payload| == |keys| && forall i | 0 <= i < |keys| :: IsEntry(payload[i], targets, keys[i], stripped)
  }

  lemma EntriesNext(payload: seq<PhaseGroup>, g: PhaseGroup, targets: seq<Target>, keys: seq<string>, key: string,
                    stripped: bool)
    requires AreEntries(payload, targets, keys, stripped) && IsEntry(g, targets, key, stripped)
    ensures AreEntries(payload + [g], targets, keys + [key], stripped)
  {
  }

  lemma {:induction false} EntriesAt(targets: seq<Target>, keys: seq<string>, stripped: bool)
    requires forall i | 0 <= i < |keys| :: HasKey(targets, keys[i])
    ensures AreEntries(GroupsOf(targets, keys, stripped), targets, keys, stripped)
    decreases |keys|
  {
    if keys != [] {
      var k := |keys| - 1;
      EntriesAt(targets, keys[..k], stripped);
      var g := EntryOf(targets, keys[k], stripped);
      EntriesNext(GroupsOf(targets, keys[..k], stripped), g, targets, keys[..k], keys[k], stripped);
      assert keys[..k] + [keys[k]] == keys;
    }
  }

  /** A payload has one entry for each group of its targets, with exactly that group's devices. */
  lemma PayloadExactly(targets: seq<Target>, stripped: bool) returns (keys: seq<string>)
    ensures Interleave.Distinct(keys) && AreEntries(Grouped(targets, stripped), targets, keys, stripped)
    ensures forall key :: key in keys <==> HasKey(targets, key)
  {
    keys := Interleave.Bastions(targets, GroupKey);
    Interleave.BastionsDistinct(targets, GroupKey);
    forall key ensures key in keys <==> HasKey(targets, key) {
      if key in keys {
        var t := Interleave.BastionOfSome(targets, GroupKey, key);
      }
      forall t | t in targets ensures GroupKey(t) in keys {
        Interleave.BastionsHave(targets, GroupKey, t);
      }
    }
    EntriesAt(targets, keys, stripped);
  }

  predicate WantsVpn(t: Target) {
    t.group.Some? && EffectiveMode(t.group, Some(t.device)) == Vpn
  }

  predicate WantsJump(t: Target) {
    t.group.Some? && EffectiveMode(t.group, Some(t.device)) == JumpHost
  }

  predicate WantsNeither(t: Target) {
    t.group.Some? && EffectiveMode(t.group, Some(t.device)) != Vpn && EffectiveMode(t.group, Some(t.device)) != JumpHost
  }

  /** x is a device of this group that wants the phase. */
  ghost predicate Belongs(targets: seq<Target>, wants: Target -> bool, groupId: string, x: nat) {
    exists t | t in targets :: t.id == x && wants(t) && GroupKey(t) == groupId
  }

  /** One group's entry: its id, stripped or not, and exactly its devices that want the phase. */
  ghost predicate EntryIs(g: PhaseGroup, targets: seq<Target>, wants: Target -> bool, groupId: string, stripped: bool) {
    && g.groupId == (if stripped then Strip(groupId) else groupId)
    && forall x :: x in g.deviceIds <==> Belongs(targets, wants, groupId, x)
  }

  function GroupIds(targets: seq<Target>, wants: Target -> bool): set<string> {
    set t | t in targets && wants(t) :: GroupKey(t)
  }

  /** The entry is that of some group with such a device. */
  ghost predicate IsOfSome(g: PhaseGroup, targets: seq<Target>, wants: Target -> bool, stripped: bool) {
    exists t | t in targets :: wants(t) && EntryIs(g, targets, wants, GroupKey(t), stripped)
  }

  ghost predicate HasEntry(payload: seq<PhaseGroup>, targets: seq<Target>, wants: Target -> bool, groupId: string,
                           stripped: bool) {
    exists g | g in payload :: EntryIs(g, targets, wants, groupId, stripped)
  }

  /** The payload has one entry for each group with devices that want the phase, and no other. */
  ghost predicate Defers(payload: seq<PhaseGroup>, targets: seq<Target>, wants: Target -> bool, stripped: bool) {
    && |payload| == |GroupIds(targets, wants)|
    && (forall g | g in payload :: IsOfSome(g, targets, wants, stripped))
    && (forall t | t in targets && wants(t) :: HasEntry(payload, targets, wants, GroupKey(t), stripped))
  }

  lemma {:induction false} DistinctSize(keys: seq<string>)
    requires Interleave.Distinct(keys)
    ensures |set key | key in keys| == |keys|
    decreases |keys|
  {
    if keys != [] {
      var k := |keys| - 1;
      DistinctSize(keys[..k]);
      assert (set key | key in keys) == (set key | key in keys[..k]) + {keys[k]};
    }
  }

  lemma PayloadDefers(targets: seq<Target>, route: Route, wants: Target -> bool, stripped: bool)
    requires forall t: Target :: wants(t) <==> RouteOf(t) == route
    ensures Defers(Grouped(OnRoute(targets, route), stripped), targets, wants, stripped)
  {
    var own := OnRoute(targets, route);
    var payload := Grouped(own, stripped);
    var keys := PayloadExactly(own, stripped);
    forall t ensures t in own <==> t in targets && wants(t) {
      OnRouteHas(targets, route, t);
    }
    DistinctSize(keys);
    KeysAreGroups(targets, own, keys, wants);
    forall g | g in payload ensures IsOfSome(g, targets, wants, stripped) {
      var i :| 0 <= i < |payload| && payload[i] == g;
      KeyWanted(targets, own, keys, keys[i], wants);
      EntryWants(g, targets, own, keys[i], wants, stripped);
    }
    forall t | t in targets && wants(t) ensures HasEntry(payload, targets, wants, GroupKey(t), stripped) {
      assert HasKey(own, GroupKey(t));
      var i :| 0 <= i < |keys| && keys[i] == GroupKey(t);
      EntryWants(payload[i], targets, own, keys[i], wants, stripped);
      assert payload[i] in payload;
    }
  }

  lemma KeyWanted(targets: seq<Target>, own: seq<Target>, keys: seq<string>, key: string, wants: Target -> bool)
    requires forall t :: t in own <==> t in targets && wants(t)
    requires key in keys && (forall k :: k in keys <==> HasKey(own, k))
    ensures exists t | t in targets :: wants(t) && GroupKey(t) == key
  {
    var t :| t in own && GroupKey(t) == key;
    assert t in targets && wants(t);
  }

  lemma KeysAreGroups(targets: seq<Target>, own: seq<Target>, keys: seq<string>, wants: Target -> bool)
    requires forall t :: t in own <==> t in targets && wants(t)
    requires forall key :: key in keys <==> HasKey(own, key)
    ensures (set key | key in keys) == GroupIds(targets, wants)
  {
    forall key ensures key in keys <==> key in GroupIds(targets, wants) {
      if key in keys {
        var t :| t in own && GroupKey(t) == key;
        assert t in targets && wants(t);
      }
      if key in GroupIds(targets, wants) {
        var t :| t in targets && wants(t) && GroupKey(t) == key;
        assert t in own;
      }
    }
  }

  lemma EntryWants(g: PhaseGroup, targets: seq<Target>, own: seq<Target>, key: string, wants: Target -> bool,
                   stripped: bool)
    requires forall t :: t in own <==> t in targets && wants(t)
    requires IsEntry(g, own, key, stripped)
    ensures EntryIs(g, targets, wants, key, stripped)
  {
    forall x ensures x in g.deviceIds <==> Belongs(targets, wants, key, x) {
      if x in g.deviceIds {
        var t :| t in own && t.id == x && GroupKey(t) == key;
        assert t in targets && wants(t);
      }
      if Belongs(targets, wants, key, x) {
        var t :| t in targets && t.id == x && wants(t) && GroupKey(t) == key;
        assert t in own;
      }
    }
  }

  /** The devices without a group. */
  function Groupless(targets: seq<Target>): nat {
    if targets == [] then 0
    else Groupless(targets[..|targets| - 1]) + (if targets[|targets| - 1].group.None? then 1 else 0)
  }

  lemma {:induction false} AloneSize(targets: seq<Target>)
    ensures |OnRoute(targets, Alone)| == Groupless(targets)
    decreases |targets|
  {
    if targets != [] {
      AloneSize(targets[..|targets| - 1]);
      RouteExactly(targets[|targets| - 1]);
    }
  }
}
