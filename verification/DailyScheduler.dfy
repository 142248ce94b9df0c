/**
 * run_scheduled_backups of app/tasks/backups.py for the rows and devices of one tenant. Instants are the local
 * instants of NextRun.
 */
module DailyScheduler {
  import opened Wrappers
  import opened NextRun
  import opened PhasePayload
  import Interleave

  const SECOND := 1_000_000

  /** What run_scheduled_backups calls of schedule_utils, in the application's zone, and the default time. */
  datatype Zone = Zone(sanitize: string -> string, nextDaily: (string, nat) -> int, default: string)

  function AppZone(): Zone {
    Zone(time => SanitizeDailyTime(time, Clock(2, 0)), (time, now: nat) => NextDailyLocal(time, now),
         ClockText(Clock(2, 0)))
  }

  /** An active schedule row; an empty time stands for a missing one too. */
  datatype Row = Row(device: nat, time: string, nextRun: Option<int>)

  // ---------------------------------------------------------------- the tenant's daily time

  /** The sanitised times of the rows that have one. */
  function TimesOf(z: Zone, rows: seq<Row>): seq<string> {
    if rows == [] then []
    else
      var last := rows[|rows| - 1];
      TimesOf(z, rows[..|rows| - 1]) + (if last.time == "" then [] else [z.sanitize(last.time)])
  }

  function CountOf(times: seq<string>, t: string): nat {
    if times == [] then 0
    else CountOf(times[..|times| - 1], t) + (if times[|times| - 1] == t then 1 else 0)
  }

  /** The distinct times in the order of their first row. */
  function FirstSeen(times: seq<string>): seq<string> {
    if times == [] then []
    else
      var before := FirstSeen(times[..|times| - 1]);
      if times[|times| - 1] in before then before else before + [times[|times| - 1]]
  }

  /** The first of the keys with the highest count. */
  function Top(times: seq<string>, keys: seq<string>): string
    requires keys != []
  {
    var last := keys[|keys| - 1];
    if |keys| == 1 then last
    else
      var best := Top(times, keys[..|keys| - 1]);
      if CountOf(times, last) > CountOf(times, best) then last else best
  }

  lemma {:induction false} FirstSeenShape(times: seq<string>)
    ensures forall t :: t in FirstSeen(times) <==> t in times
    decreases |times|
  {
    if times != [] {
      FirstSeenShape(times[..|times| - 1]);
      assert forall t :: t in times <==> t in times[..|times| - 1] || t == times[|times| - 1];
    }
  }

  /** Counter(times).most_common(1)[0][0] */
  function MostCommon(times: seq<string>): string
    requires times != []
  {
    FirstSeenShape(times);
    assert times[0] in FirstSeen(times);
    Top(times, FirstSeen(times))
  }

  lemma {:induction false} TopShape(times: seq<string>, keys: seq<string>)
    requires keys != []
    ensures Top(times, keys) in keys
    ensures forall t | t in keys :: CountOf(times, t) <= CountOf(times, Top(times, keys))
    decreases |keys|
  {
    var k := |keys| - 1;
    if k > 0 {
      TopShape(times, keys[..k]);
    }
    assert forall t :: t in keys <==> t in keys[..k] || t == keys[k];
  }

  lemma {:induction false} CountOfAbsent(times: seq<string>, t: string)
    requires t !in times
    ensures CountOf(times, t) == 0
    decreases |times|
  {
    if times != [] {
      CountOfAbsent(times[..|times| - 1], t);
    }
  }

  /** No time is shared by more rows than the tenant's. */
  lemma MostCommonIsMost(times: seq<string>, t: string)
    requires times != []
    ensures MostCommon(times) in times && CountOf(times, t) <= CountOf(times, MostCommon(times))
  {
    FirstSeenShape(times);
    assert times[0] in FirstSeen(times);
    TopShape(times, FirstSeen(times));
    if t !in times {
      CountOfAbsent(times, t);
    }
  }

  /** _tenant_daily_time */
  function TenantTime(z: Zone, rows: seq<Row>): string {
    var times := TimesOf(z, rows);
    if times == [] then z.default else MostCommon(times)
  }

  // ---------------------------------------------------------------- one tick

  function Devices(rows: seq<Row>): seq<nat> {
    seq(|rows|, i requires 0 <= i < |rows| => rows[i].device)
  }

  function NewRow(z: Zone, rows: seq<Row>, device: nat, now: nat): Row {
    Row(device, TenantTime(z, rows), Some(z.nextDaily(TenantTime(z, rows), now)))
  }

  /** A row for each listed device that has none, at the tenant's time. */
  function Missing(z: Zone, rows: seq<Row>, ids: seq<nat>, now: nat): seq<Row> {
    if ids == [] then []
    else
      var last := ids[|ids| - 1];
      Missing(z, rows, ids[..|ids| - 1], now) + (if last in Devices(rows) then [] else [NewRow(z, rows, last, now)])
  }

  /** Row i with its time sanitised or filled in, and its next run filled in. */
  function Tidy(z: Zone, rows: seq<Row>, i: nat, now: nat): Row
    requires i < |rows|
  {
    var row := rows[i];
    var time := if row.time == "" then TenantTime(z, rows) else z.sanitize(row.time);
    Row(row.device, time, if row.nextRun.Some? then row.nextRun else Some(z.nextDaily(time, now)))
  }

  /** The rows after the first n were tidied; each sees the ones before it tidied already. */
  function Tidied(z: Zone, rows: seq<Row>, n: nat, now: nat): (r: seq<Row>)
    requires n <= |rows|
    ensures |r| == |rows|
  {
    if n == 0 then rows
    else
      var before := Tidied(z, rows, n - 1, now);
      before[n - 1 := Tidy(z, before, n - 1, now)]
  }

  predicate IsDue(row: Row, now: nat) {
    row.nextRun.Some? && row.nextRun.value <= now
  }

  predicate AnyDue(rows: seq<Row>, now: nat) {
    exists i | 0 <= i < |rows| :: IsDue(rows[i], now)
  }

  lemma {:induction false} TidiedRest(z: Zone, rows: seq<Row>, n: nat, now: nat, j: nat)
    requires n <= j < |rows|
    ensures Tidied(z, rows, n, now)[j] == rows[j]
    decreases n
  {
    if n > 0 {
      TidiedRest(z, rows, n - 1, now, j);
    }
  }

  lemma DueNext(rows: seq<Row>, i: nat, now: nat)
    requires i < |rows|
    ensures AnyDue(rows[..i + 1], now) <==> AnyDue(rows[..i], now) || IsDue(rows[i], now)
  {
    if IsDue(rows[i], now) {
      assert IsDue(rows[..i + 1][i], now);
    }
    if AnyDue(rows[..i], now) {
      var j :| 0 <= j < i && IsDue(rows[..i][j], now);
      assert IsDue(rows[..i + 1][j], now);
    }
  }

  lemma TidyStep(z: Zone, table: seq<Row>, current: seq<Row>, i: nat, now: nat)
    requires i < |table| && current == Tidied(z, table, i, now)
    ensures |current| == |table| && current[i] == table[i]
    ensures current[i := Tidy(z, current, i, now)] == Tidied(z, table, i + 1, now)
    ensures AnyDue(table[..i + 1], now) <==> AnyDue(table[..i], now) || IsDue(table[i], now)
  {
    TidiedRest(z, table, i, now, i);
    DueNext(table, i, now);
  }

  /** After a batch: one time and one next run for all. */
  function Rescheduled(z: Zone, rows: seq<Row>, now: nat): seq<Row> {
    var time := TenantTime(z, rows);
    seq(|rows|, i requires 0 <= i < |rows| => Row(rows[i].device, time, Some(z.nextDaily(time, now + SECOND))))
  }

  /** What a tick makes of the rows, and whether it runs a batch. */
  function AfterTick(z: Zone, rows: seq<Row>, ids: seq<nat>, now: nat): (seq<Row>, bool) {
    var all := rows + Missing(z, rows, ids, now);
    var tidied := Tidied(z, all, |all|, now);
    if AnyDue(all, now) then (Rescheduled(z, tidied, now), true) else (tidied, false)
  }

  /** The jobs of a batch: direct devices with their countdowns, Jump Host devices dealt over bastions, VPN groups. */
  datatype Batch = Batch(direct: seq<(nat, nat)>, jump: seq<Interleave.Entry<Target>>, vpn: seq<PhaseGroup>)

  /** The devices that take neither the VPN nor the Jump Host route. */
  function DirectTargets(targets: seq<Target>): seq<Target> {
    if targets == [] then []
    else
      var last := targets[|targets| - 1];
      DirectTargets(targets[..|targets| - 1])
      + (if RouteOf(last) != ByVpn && RouteOf(last) != ByJump then [last] else [])
  }

  function Paced(ids: seq<nat>): seq<(nat, nat)> {
    seq(|ids|, i requires 0 <= i < |ids| => (ids[i], i * 2))
  }

  function BatchOf(targets: seq<Target>, bastionOf: Target -> string, stagger: nat): Batch {
    Batch(Paced(Ids(DirectTargets(targets))),
          Interleave.Deal(OnRoute(targets, ByJump), bastionOf, Interleave.Pace(stagger)),
          Grouped(OnRoute(targets, ByVpn), false))
  }

  method PaceDirect(targets: seq<Target>) returns (direct: seq<(nat, nat)>)
    ensures direct == Paced(Ids(targets))
  {
    direct := [];
    for i := 0 to |targets|
      invariant |direct| == i
      invariant forall j | 0 <= j < i :: direct[j] == (targets[j].id, j * 2)
    {
      direct := direct + [(targets[i].id, i * 2)];
    }
  }

  method EnqueueBatch(targets: seq<Target>, bastionOf: Target -> string, stagger: nat) returns (batch: Batch)
    ensures batch == BatchOf(targets, bastionOf, stagger)
  {
    var vpnTargets, jumpTargets, directTargets: seq<Target> := [], [], [];
    for i := 0 to |targets|
      invariant vpnTargets == OnRoute(targets[..i], ByVpn)
      invariant jumpTargets == OnRoute(targets[..i], ByJump)
      invariant directTargets == DirectTargets(targets[..i])
    {
      assert targets[..i + 1][..i] == targets[..i];
      if RouteOf(targets[i]) == ByVpn {
        vpnTargets := vpnTargets + [targets[i]];
      } else if RouteOf(targets[i]) == ByJump {
        jumpTargets := jumpTargets + [targets[i]];
      } else {
        directTargets := directTargets + [targets[i]];
      }
    }
    assert targets[..|targets|] == targets;
    var direct := PaceDirect(directTargets);
    var jump := Interleave.InterleaveByBastion(jumpTargets, bastionOf, stagger);
    var vpn := BuildPayload(vpnTargets, false);
    batch := Batch(direct, jump, vpn);
  }

  /** The loop body for row i. */
  method TidyOne(z: Zone, ghost table: seq<Row>, current: seq<Row>, i: nat, now: nat, due0: bool)
    returns (next: seq<Row>, due: bool)
    requires i < |table| && current == Tidied(z, table, i, now) && due0 == AnyDue(table[..i], now)
    ensures next == Tidied(z, table, i + 1, now) && due == AnyDue(table[..i + 1], now)
  {
    TidyStep(z, table, current, i, now);
    due := due0 || IsDue(current[i], now);
    next := current[i := Tidy(z, current, i, now)];
  }

  method TidyAll(z: Zone, table: seq<Row>, now: nat) returns (current: seq<Row>, due: bool)
    ensures current == Tidied(z, table, |table|, now)
    ensures due == AnyDue(table, now)
  {
    current, due := table, false;
    for i := 0 to |table|
      invariant current == Tidied(z, table, i, now)
      invariant due == AnyDue(table[..i], now)
    {
      current, due := TidyOne(z, table, current, i, now, due);
    }
    assert table[..|table|] == table;
  }

  /** The rows of the tenant's enabled devices. */
  class Schedule {
    const z: Zone
    var rows: seq<Row>

    constructor (z: Zone)
      ensures this.z == z && rows == []
    {
      this.z := z;
      rows := [];
    }

    /**
     * One run of the scheduler for the devices enabled now. `blocked` is the global stop or a bulk lot in progress;
     * `excluded` are the devices whose type takes no part in mass backups.
     */
    method Tick(now: nat, blocked: bool, targets: seq<Target>, excluded: set<nat>,
                bastionOf: Target -> string, stagger: nat) returns (batch: Option<Batch>)
      modifies this
      ensures blocked ==> batch == None && rows == old(rows)
      ensures !blocked ==> (rows, batch.Some?) == AfterTick(z, old(rows), Ids(targets), now)
      ensures batch.Some? ==> batch.value == BatchOf(Eligible(targets, excluded), bastionOf, stagger)
    {
      batch := None;
      if blocked {
        return;
      }
      AddMissing(targets, now);
      var due := TidyRows(now);
      if due {
        var eligible := Eligible(targets, excluded);
        var jobs := EnqueueBatch(eligible, bastionOf, stagger);
        batch := Some(jobs);
        Reschedule(now);
      }
    }

    method AddMissing(targets: seq<Target>, now: nat)
      modifies this
      ensures rows == old(rows) + Missing(z, old(rows), Ids(targets), now)
    {
      var known := rows;
      var added: seq<Row> := [];
      for i := 0 to |targets|
        invariant added == Missing(z, known, Ids(targets)[..i], now)
        invariant rows == known
      {
        assert Ids(targets)[..i + 1][..i] == Ids(targets)[..i];
        if targets[i].id in Devices(known) {
          continue;
        }
        added := added + [NewRow(z, known, targets[i].id, now)];
      }
      assert Ids(targets)[..|targets|] == Ids(targets);
      rows := known + added;
    }

    method TidyRows(now: nat) returns (due: bool)
      modifies this
      ensures rows == Tidied(z, old(rows), |old(rows)|, now)
      ensures due == AnyDue(old(rows), now)
    {
      var tidied;
      tidied, due := TidyAll(z, rows, now);
      rows := tidied;
    }

    method Reschedule(now: nat)
      modifies this
      ensures rows == Rescheduled(z, old(rows), now)
    {
      var time := TenantTime(z, rows);
      var nextRun := z.nextDaily(time, now + SECOND);
      ghost var table := rows;
      for i := 0 to |rows|
        invariant |rows| == |table|
        invariant forall j | 0 <= j < i :: rows[j] == Row(table[j].device, time, Some(nextRun))
        invariant forall j | i <= j < |table| :: rows[j] == table[j]
      {
        rows := rows[i := Row(rows[i].device, time, Some(nextRun))];
      }
    }
  }

  function Eligible(targets: seq<Target>, excluded: set<nat>): seq<Target> {
    if targets == [] then []
    else
      var last := targets[|targets| - 1];
      Eligible(targets[..|targets| - 1], excluded) + (if last.id in excluded then [] else [last])
  }

  // ---------------------------------------------------------------- the rows between two batches

  /** What the theorems need of the zone. */
  ghost predicate SoundZone(z: Zone) {
    && z.default != "" && z.sanitize(z.default) == z.default
    && (forall t :: z.sanitize(t) != "" && z.sanitize(z.sanitize(t)) == z.sanitize(t))
    && (forall t, now :: z.nextDaily(t, now) > now)
  }

  lemma AppZoneIsSound()
    ensures SoundZone(AppZone())
  {
    var z := AppZone();
    var two := Clock(2, 0);
    forall t ensures z.sanitize(t) != "" && z.sanitize(z.sanitize(t)) == z.sanitize(t) {
      SanitizeTwice(t, two, two);
    }
    ClockRoundTrip(two);
    forall t, now: nat ensures z.nextDaily(t, now) > now {
      DailyIsFirst(t, now);
    }
  }

  /** The row's next run was computed for `time` at some moment not before `since`. */
  ghost predicate RunsAt(z: Zone, row: Row, time: string, since: nat) {
    row.time == time && exists s: nat | since <= s :: row.nextRun == Some(z.nextDaily(time, s))
  }

  /** All rows share one sanitised time and were scheduled for it at or after `since`. */
  ghost predicate Aligned(z: Zone, rows: seq<Row>, time: string, since: nat) {
    && time != "" && z.sanitize(time) == time
    && forall i | 0 <= i < |rows| :: RunsAt(z, rows[i], time, since)
  }

  lemma {:induction false} TimesAreSanitized(z: Zone, rows: seq<Row>, t: string)
    requires SoundZone(z) && t in TimesOf(z, rows)
    ensures t != "" && z.sanitize(t) == t
    decreases |rows|
  {
    if t in TimesOf(z, rows[..|rows| - 1]) {
      TimesAreSanitized(z, rows[..|rows| - 1], t);
    }
  }

  lemma TenantTimeIsSanitized(z: Zone, rows: seq<Row>)
    requires SoundZone(z)
    ensures TenantTime(z, rows) != "" && z.sanitize(TenantTime(z, rows)) == TenantTime(z, rows)
  {
    var times := TimesOf(z, rows);
    if times != [] {
      MostCommonIsMost(times, times[0]);
      TimesAreSanitized(z, rows, MostCommon(times));
    }
  }

  lemma {:induction false} AlignedTimes(z: Zone, rows: seq<Row>, time: string)
    requires time != "" && z.sanitize(time) == time && forall i | 0 <= i < |rows| :: rows[i].time == time
    ensures |TimesOf(z, rows)| == |rows| && forall t | t in TimesOf(z, rows) :: t == time
    decreases |rows|
  {
    if rows != [] {
      AlignedTimes(z, rows[..|rows| - 1], time);
    }
  }

  lemma AlignedTenantTime(z: Zone, rows: seq<Row>, time: string, since: nat)
    requires Aligned(z, rows, time, since) && rows != []
    ensures TenantTime(z, rows) == time
  {
    AlignedTimes(z, rows, time);
    var times := TimesOf(z, rows);
    MostCommonIsMost(times, times[0]);
  }

  /** After a batch all rows share one time and will run next after now. */
  lemma BatchAligns(z: Zone, rows: seq<Row>, now: nat)
    requires SoundZone(z)
    ensures Aligned(z, Rescheduled(z, rows, now), TenantTime(z, rows), now)
    ensures forall row | row in Rescheduled(z, rows, now) :: row.nextRun.Some? && row.nextRun.value > now
  {
    TenantTimeIsSanitized(z, rows);
  }

  lemma {:induction false} MissingAligned(z: Zone, rows: seq<Row>, ids: seq<nat>, now: nat, time: string, since: nat)
    requires SoundZone(z) && Aligned(z, rows, time, since) && rows != [] && since <= now
    ensures Aligned(z, Missing(z, rows, ids, now), time, since)
    ensures !AnyDue(Missing(z, rows, ids, now), now)
    decreases |ids|
  {
    if ids != [] {
      MissingAligned(z, rows, ids[..|ids| - 1], now, time, since);
      AlignedTenantTime(z, rows, time, since);
    }
  }

  /** Nothing to tidy: the time is sanitised and the next run known. */
  predicate IsTidy(z: Zone, row: Row) {
    row.time != "" && z.sanitize(row.time) == row.time && row.nextRun.Some?
  }

  lemma TidySame(z: Zone, rows: seq<Row>, i: nat, now: nat)
    requires i < |rows| && IsTidy(z, rows[i])
    ensures rows[i := Tidy(z, rows, i, now)] == rows
  {
    assert Tidy(z, rows, i, now) == rows[i];
  }

  lemma {:induction false} TidyingKeeps(z: Zone, rows: seq<Row>, n: nat, now: nat)
    requires n <= |rows| && forall i | 0 <= i < n :: IsTidy(z, rows[i])
    ensures Tidied(z, rows, n, now) == rows
    decreases n
  {
    if n > 0 {
      TidyingKeeps(z, rows, n - 1, now);
      TidySame(z, rows, n - 1, now);
    }
  }

  /** A tick without a batch leaves aligned rows aligned; one with a batch comes after an occurrence of the time. */
  lemma TickFromAligned(z: Zone, rows: seq<Row>, ids: seq<nat>, now: nat, time: string, since: nat) returns (s: nat)
    requires SoundZone(z) && Aligned(z, rows, time, since) && rows != [] && since <= now
    ensures !AfterTick(z, rows, ids, now).1 ==>
              Aligned(z, AfterTick(z, rows, ids, now).0, time, since) && AfterTick(z, rows, ids, now).0 != []
    ensures AfterTick(z, rows, ids, now).1 ==> since <= s < z.nextDaily(time, s) <= now
  {
    var added := Missing(z, rows, ids, now);
    var all := rows + added;
    MissingAligned(z, rows, ids, now, time, since);
    forall i | 0 <= i < |all| ensures RunsAt(z, all[i], time, since) {
      if i >= |rows| {
        assert RunsAt(z, added[i - |rows|], time, since);
      }
    }
    forall i | 0 <= i < |all| ensures IsTidy(z, all[i]) {
      assert RunsAt(z, all[i], time, since);
    }
    TidyingKeeps(z, all, |all|, now);
    s := 0;
    if AnyDue(all, now) {
      var i :| 0 <= i < |all| && IsDue(all[i], now);
      assert RunsAt(z, all[i], time, since);
      s :| since <= s && all[i].nextRun == Some(z.nextDaily(time, s));
    }
  }

  /** A run of the scheduler: its time, whether it was blocked, and the devices enabled then. */
  datatype Moment = Moment(now: nat, blocked: bool, ids: seq<nat>)

  /** The rows after these runs. */
  function Rest(z: Zone, rows: seq<Row>, moments: seq<Moment>): seq<Row>
    decreases |moments|
  {
    if moments == [] then rows
    else if moments[0].blocked then Rest(z, rows, moments[1..])
    else Rest(z, AfterTick(z, rows, moments[0].ids, moments[0].now).0, moments[1..])
  }

  /** No run of the scheduler among these batches. */
  predicate Quiet(z: Zone, rows: seq<Row>, moments: seq<Moment>)
    decreases |moments|
  {
    moments == [] ||
    if moments[0].blocked then Quiet(z, rows, moments[1..])
    else
      var (after, batch) := AfterTick(z, rows, moments[0].ids, moments[0].now);
      !batch && Quiet(z, after, moments[1..])
  }

  ghost predicate NotBefore(moments: seq<Moment>, t: nat) {
    forall m | m in moments :: t <= m.now
  }

  lemma {:induction false} QuietKeepsAligned(z: Zone, rows: seq<Row>, moments: seq<Moment>, time: string, since: nat)
    requires SoundZone(z) && Aligned(z, rows, time, since) && rows != []
    requires NotBefore(moments, since) && Quiet(z, rows, moments)
    ensures Aligned(z, Rest(z, rows, moments), time, since) && Rest(z, rows, moments) != []
    decreases |moments|
  {
    if moments != [] {
      assert moments[0] in moments;
      assert forall m | m in moments[1..] :: m in moments;
      if moments[0].blocked {
        QuietKeepsAligned(z, rows, moments[1..], time, since);
      } else {
        var s := TickFromAligned(z, rows, moments[0].ids, moments[0].now, time, since);
        QuietKeepsAligned(z, AfterTick(z, rows, moments[0].ids, moments[0].now).0, moments[1..], time, since);
      }
    }
  }

  /**
   * Between a batch at t1 and the tenant's next one at t2, with any runs of the scheduler in between and any devices
   * added, there is an occurrence of the tenant's daily time.
   */
  lemma OccurrenceBetweenBatches(rows: seq<Row>, ids1: seq<nat>, t1: nat, between: seq<Moment>, ids2: seq<nat>, t2: nat)
    returns (x: nat)
    requires var z := AppZone();
             var (after, batch) := AfterTick(z, rows, ids1, t1);
             && batch && NotBefore(between, t1) && t1 <= t2 && Quiet(z, after, between)
             && AfterTick(z, Rest(z, after, between), ids2, t2).1
    ensures var z := AppZone();
            var all := rows + Missing(z, rows, ids1, t1);
            var time := TenantTime(z, Tidied(z, all, |all|, t1));
            && (forall row | row in AfterTick(z, rows, ids1, t1).0 :: row.time == time)
            && t1 < x <= t2 && Fits(Daily, SanitizedClock(time, Clock(2, 0)), x)
  {
    var z := AppZone();
    AppZoneIsSound();
    var all := rows + Missing(z, rows, ids1, t1);
    var tidied := Tidied(z, all, |all|, t1);
    var time := TenantTime(z, tidied);
    var after := Rescheduled(z, tidied, t1);
    BatchAligns(z, tidied, t1);
    QuietKeepsAligned(z, after, between, time, t1);
    var s := TickFromAligned(z, Rest(z, after, between), ids2, t2, time, t1);
    x := z.nextDaily(time, s);
    DailyIsFirst(time, s);
  }

  // ---------------------------------------------------------------- a batch enqueues each device once

  lemma {:induction false} DirectHas(targets: seq<Target>, t: Target)
    ensures t in DirectTargets(targets) <==> t in targets && RouteOf(t) != ByVpn && RouteOf(t) != ByJump
    decreases |targets|
  {
    if targets != [] {
      DirectHas(targets[..|targets| - 1], t);
      assert t in targets <==> t in targets[..|targets| - 1] || t == targets[|targets| - 1];
    }
  }

  lemma {:induction false} DirectNoDup(targets: seq<Target>)
    requires NoDup(Ids(targets))
    ensures NoDup(Ids(DirectTargets(targets)))
    decreases |targets|
  {
    if targets != [] {
      var k := |targets| - 1;
      var before, last := DirectTargets(targets[..k]), targets[k];
      assert Ids(targets)[..k] == Ids(targets[..k]);
      DirectNoDup(targets[..k]);
      assert last.id !in Ids(before) by {
        IdsHave(targets[..k], last.id);
        IdsHave(before, last.id);
        forall t | t in before ensures t in targets[..k] {
          DirectHas(targets[..k], t);
        }
      }
      AppendNoDup(before, last);
      assert before + [] == before;
    }
  }

  lemma {:induction false} MultisetNoDup<T>(s: seq<T>)
    ensures NoDup(s) <==> forall x :: multiset(s)[x] <= 1
    decreases |s|
  {
    if s != [] {
      var k := |s| - 1;
      MultisetNoDup(s[..k]);
      assert s == s[..k] + [s[k]];
      var before := multiset(s[..k]);
      assert before[s[k]] > 0 <==> s[k] in s[..k];
      assert forall x :: multiset(s)[x] == before[x] + (if x == s[k] then 1 else 0);
      if NoDup(s) {
        assert forall x :: multiset(s)[x] <= 1;
      } else if NoDup(s[..k]) {
        assert multiset(s)[s[k]] > 1;
      } else {
        var x :| before[x] > 1;
        assert multiset(s)[x] > 1;
      }
    }
  }

  /** Reordering keeps the ids, each once. */
  lemma ReorderedIds(own: seq<Target>, items: seq<Target>)
    requires NoDup(Ids(own)) && multiset(items) == multiset(own)
    ensures NoDup(Ids(items)) && forall x :: x in Ids(items) <==> x in Ids(own)
  {
    assert forall t :: t in items <==> t in own by {
      forall t ensures t in items <==> t in own {
        assert t in items <==> multiset(items)[t] > 0;
        assert t in own <==> multiset(own)[t] > 0;
      }
    }
    forall x ensures x in Ids(items) <==> x in Ids(own) {
      IdsHave(items, x);
      IdsHave(own, x);
    }
    IdsNoDup(own);
    MultisetNoDup(own);
    MultisetNoDup(items);
    DistinctIds(own, items);
  }

  lemma {:induction false} IdsNoDup(targets: seq<Target>)
    requires NoDup(Ids(targets))
    ensures NoDup(targets)
    decreases |targets|
  {
    if targets != [] {
      var k := |targets| - 1;
      assert Ids(targets)[..k] == Ids(targets[..k]);
      IdsNoDup(targets[..k]);
      forall t | t in targets[..k] ensures t.id != targets[k].id {
        assert HasId(targets[..k], t.id);
        IdsHave(targets[..k], t.id);
      }
    }
  }

  lemma {:induction false} DistinctIds(own: seq<Target>, items: seq<Target>)
    requires NoDup(Ids(own)) && NoDup(items) && forall t | t in items :: t in own
    ensures NoDup(Ids(items))
    decreases |items|
  {
    if items != [] {
      var k := |items| - 1;
      DistinctIds(own, items[..k]);
      assert Ids(items)[..k] == Ids(items[..k]);
      IdsHave(items[..k], items[k].id);
      forall t | t in items[..k] ensures t.id != items[k].id {
        if t.id == items[k].id {
          SameTarget(own, t, items[k]);
        }
      }
    }
  }

  function JumpIds(batch: Batch): seq<nat> {
    Ids(Interleave.ItemsOf(batch.jump))
  }

  function DirectIds(batch: Batch): seq<nat> {
    seq(|batch.direct|, i requires 0 <= i < |batch.direct| => batch.direct[i].0)
  }

  /** All the device ids of a batch's jobs. */
  function EnqueuedIds(batch: Batch): seq<nat> {
    DirectIds(batch) + JumpIds(batch) + AllIds(batch.vpn)
  }

  lemma BatchParts(targets: seq<Target>, bastionOf: Target -> string, stagger: nat)
    requires NoDup(Ids(targets))
    ensures var b := BatchOf(targets, bastionOf, stagger);
            && DirectIds(b) == Ids(DirectTargets(targets)) && NoDup(DirectIds(b))
            && NoDup(JumpIds(b)) && (forall x :: x in JumpIds(b) <==> x in Ids(OnRoute(targets, ByJump)))
            && NoDup(AllIds(b.vpn)) && (forall x :: x in AllIds(b.vpn) <==> x in Ids(OnRoute(targets, ByVpn)))
  {
    var b := BatchOf(targets, bastionOf, stagger);
    assert DirectIds(b) == Ids(DirectTargets(targets));
    DirectNoDup(targets);
    OnRouteNoDup(targets, ByJump);
    Interleave.DealIsPermutation(OnRoute(targets, ByJump), bastionOf, Interleave.Pace(stagger));
    ReorderedIds(OnRoute(targets, ByJump), Interleave.ItemsOf(b.jump));
    OnRouteNoDup(targets, ByVpn);
    PayloadCovers(OnRoute(targets, ByVpn), false);
  }

  lemma OneRouteEach(targets: seq<Target>, x: nat)
    requires NoDup(Ids(targets))
    ensures var direct := Ids(DirectTargets(targets));
            var jump, vpn := Ids(OnRoute(targets, ByJump)), Ids(OnRoute(targets, ByVpn));
            && (x in Ids(targets) <==> x in direct || x in jump || x in vpn)
            && !(x in direct && x in jump) && !(x in direct && x in vpn) && !(x in jump && x in vpn)
  {
    IdsHave(targets, x);
    IdsHave(DirectTargets(targets), x);
    OnRouteIds(targets, ByJump, x);
    OnRouteIds(targets, ByVpn, x);
    forall t ensures t in DirectTargets(targets) <==> t in targets && RouteOf(t) != ByVpn && RouteOf(t) != ByJump {
      DirectHas(targets, t);
    }
    if HasId(targets, x) {
      var t :| t in targets && t.id == x;
      forall u | u in targets && u.id == x ensures u == t {
        SameTarget(targets, t, u);
      }
    }
  }

  lemma CoverOfThree(a: seq<nat>, b: seq<nat>, c: seq<nat>, ids: seq<nat>)
    requires NoDup(a) && NoDup(b) && NoDup(c)
    requires forall x :: !(x in a && x in b) && !(x in a && x in c) && !(x in b && x in c)
    requires forall x :: x in ids <==> x in a || x in b || x in c
    ensures NoDup(a + b + c) && forall x :: x in a + b + c <==> x in ids
  {
    NoDupConcat(a, b);
    NoDupConcat(a + b, c);
  }

  lemma DueParts(targets: seq<Target>, bastionOf: Target -> string, stagger: nat)
    returns (direct: seq<nat>, jump: seq<nat>, vpn: seq<nat>)
    requires NoDup(Ids(targets))
    ensures direct + jump + vpn == EnqueuedIds(BatchOf(targets, bastionOf, stagger))
    ensures NoDup(direct) && NoDup(jump) && NoDup(vpn)
    ensures forall x :: !(x in direct && x in jump) && !(x in direct && x in vpn) && !(x in jump && x in vpn)
    ensures forall x :: x in Ids(targets) <==> x in direct || x in jump || x in vpn
  {
    var b := BatchOf(targets, bastionOf, stagger);
    direct, jump, vpn := DirectIds(b), JumpIds(b), AllIds(b.vpn);
    BatchParts(targets, bastionOf, stagger);
    forall x
      ensures !(x in direct && x in jump) && !(x in direct && x in vpn) && !(x in jump && x in vpn)
      ensures x in Ids(targets) <==> x in direct || x in jump || x in vpn
    {
      OneRouteEach(targets, x);
    }
  }

  /** Each eligible device is enqueued exactly once, as a direct, a Jump Host or a VPN group device. */
  lemma EachDueDeviceOnce(targets: seq<Target>, bastionOf: Target -> string, stagger: nat)
    requires NoDup(Ids(targets))
    ensures NoDup(EnqueuedIds(BatchOf(targets, bastionOf, stagger)))
    ensures forall x :: x in EnqueuedIds(BatchOf(targets, bastionOf, stagger)) <==> x in Ids(targets)
  {
    var direct, jump, vpn := DueParts(targets, bastionOf, stagger);
    CoverOfThree(direct, jump, vpn, Ids(targets));
  }

  lemma {:induction false} EligibleShape(targets: seq<Target>, excluded: set<nat>)
    requires NoDup(Ids(targets))
    ensures NoDup(Ids(Eligible(targets, excluded)))
    ensures forall x :: x in Ids(Eligible(targets, excluded)) <==> x in Ids(targets) && x !in excluded
    decreases |targets|
  {
    if targets != [] {
      var k := |targets| - 1;
      var before, last := Eligible(targets[..k], excluded), targets[k];
      assert Ids(targets)[..k] == Ids(targets[..k]);
      EligibleShape(targets[..k], excluded);
      AppendNoDup(before, last);
      assert Ids(targets) == Ids(targets[..k]) + [last.id];
      assert Ids(before + [last]) == Ids(before) + [last.id];
      assert before + [] == before;
    }
  }

  /** A batch enqueues exactly the tenant's devices that are not excluded, each once. */
  lemma BatchEnqueuesEligible(targets: seq<Target>, excluded: set<nat>, bastionOf: Target -> string, stagger: nat)
    requires NoDup(Ids(targets))
    ensures var ids := EnqueuedIds(BatchOf(Eligible(targets, excluded), bastionOf, stagger));
            NoDup(ids) && forall x :: x in ids <==> x in Ids(targets) && x !in excluded
  {
    EligibleShape(targets, excluded);
    EachDueDeviceOnce(Eligible(targets, excluded), bastionOf, stagger);
  }

  // ---------------------------------------------------------------- when a batch runs and what it holds

  lemma {:induction false} MissingNotDue(z: Zone, rows: seq<Row>, ids: seq<nat>, now: nat)
    requires SoundZone(z)
    ensures forall row | row in Missing(z, rows, ids, now) :: row.nextRun.Some? && row.nextRun.value > now
    decreases |ids|
  {
    if ids != [] {
      MissingNotDue(z, rows, ids[..|ids| - 1], now);
    }
  }

  /** A run of the scheduler that is not blocked runs a batch exactly when the next run of some row has come. */
  lemma BatchIffDue(z: Zone, rows: seq<Row>, ids: seq<nat>, now: nat)
    requires SoundZone(z)
    ensures AfterTick(z, rows, ids, now).1 <==>
              exists row | row in rows :: row.nextRun.Some? && row.nextRun.value <= now
  {
    var added := Missing(z, rows, ids, now);
    var all := rows + added;
    MissingNotDue(z, rows, ids, now);
    if AnyDue(all, now) {
      var i :| 0 <= i < |all| && IsDue(all[i], now);
      var row := all[i];
      assert row in rows || row in added;
    }
    forall row | row in rows && row.nextRun.Some? && row.nextRun.value <= now ensures AnyDue(all, now) {
      var i :| 0 <= i < |rows| && rows[i] == row;
      assert IsDue(all[i], now);
    }
  }

  lemma {:induction false} MissingHas(z: Zone, rows: seq<Row>, ids: seq<nat>, now: nat, id: nat)
    ensures id in Devices(Missing(z, rows, ids, now)) <==> id in ids && id !in Devices(rows)
    decreases |ids|
  {
    if ids != [] {
      var k := |ids| - 1;
      var before := Missing(z, rows, ids[..k], now);
      MissingHas(z, rows, ids[..k], now, id);
      assert id in ids <==> id in ids[..k] || id == ids[k];
      var last := if ids[k] in Devices(rows) then [] else [NewRow(z, rows, ids[k], now)];
      DevicesConcat(before, last, id);
      assert last != [] ==> Devices(last) == [ids[k]];
    }
  }

  lemma DevicesConcat(a: seq<Row>, b: seq<Row>, id: nat)
    ensures Devices(a + b) == Devices(a) + Devices(b)
    ensures id in Devices(a + b) <==> id in Devices(a) || id in Devices(b)
  {
    assert Devices(a + b) == Devices(a) + Devices(b);
  }

  /** What tidying makes of a row. */
  ghost predicate TidyOf(z: Zone, now: nat, row: Row, tidy: Row) {
    && tidy.device == row.device && z.sanitize(tidy.time) == tidy.time != ""
    && (row.time != "" ==> tidy.time == z.sanitize(row.time))
    && tidy.nextRun == if row.nextRun.Some? then row.nextRun else Some(z.nextDaily(tidy.time, now))
  }

  lemma TidyRow(z: Zone, rows: seq<Row>, i: nat, now: nat)
    requires SoundZone(z) && i < |rows|
    ensures TidyOf(z, now, rows[i], Tidy(z, rows, i, now))
  {
    TenantTimeIsSanitized(z, rows);
  }

  /** The first n rows are tidied, the others as they were. */
  ghost predicate TidyTable(z: Zone, now: nat, rows: seq<Row>, n: nat, t: seq<Row>) {
    && |t| == |rows| && (forall i | 0 <= i < |rows| && i < n :: TidyOf(z, now, rows[i], t[i]))
    && (forall i | n <= i < |rows| :: t[i] == rows[i])
  }

  lemma TableNext(z: Zone, now: nat, rows: seq<Row>, n: nat, t: seq<Row>)
    requires SoundZone(z) && n < |rows| && TidyTable(z, now, rows, n, t)
    ensures TidyTable(z, now, rows, n + 1, t[n := Tidy(z, t, n, now)])
  {
    TidyRow(z, t, n, now);
  }

  lemma {:induction false} TidiedTable(z: Zone, rows: seq<Row>, n: nat, now: nat)
    requires SoundZone(z) && n <= |rows|
    ensures TidyTable(z, now, rows, n, Tidied(z, rows, n, now))
    decreases n
  {
    if n > 0 {
      TidiedTable(z, rows, n - 1, now);
      TableNext(z, now, rows, n - 1, Tidied(z, rows, n - 1, now));
    }
  }

  lemma TableDevices(z: Zone, now: nat, rows: seq<Row>, t: seq<Row>)
    requires TidyTable(z, now, rows, |rows|, t)
    ensures Devices(t) == Devices(rows)
  {
  }

  /** After a run every enabled device has a row; the rows there were keep their devices, in their order. */
  lemma EveryDeviceHasRow(z: Zone, rows: seq<Row>, ids: seq<nat>, now: nat)
    requires SoundZone(z)
    ensures Devices(rows) <= Devices(AfterTick(z, rows, ids, now).0)
    ensures forall id :: id in Devices(AfterTick(z, rows, ids, now).0) <==> id in Devices(rows) || id in ids
  {
    var added := Missing(z, rows, ids, now);
    forall id ensures id in Devices(rows + added) <==> id in Devices(rows) || id in ids {
      MissingHas(z, rows, ids, now, id);
      DevicesConcat(rows, added, id);
    }
    SameDevices(z, rows, ids, now);
    RowsStay(rows, added);
  }

  lemma RowsStay(rows: seq<Row>, added: seq<Row>)
    ensures Devices(rows) <= Devices(rows + added)
  {
    assert Devices(rows + added) == Devices(rows) + Devices(added);
  }

  lemma SameDevices(z: Zone, rows: seq<Row>, ids: seq<nat>, now: nat)
    requires SoundZone(z)
    ensures Devices(AfterTick(z, rows, ids, now).0) == Devices(rows + Missing(z, rows, ids, now))
  {
    var all := rows + Missing(z, rows, ids, now);
    var tidied := Tidied(z, all, |all|, now);
    TidiedTable(z, all, |all|, now);
    TableDevices(z, now, all, tidied);
    assert Devices(Rescheduled(z, tidied, now)) == Devices(tidied);
  }

  /** A run without a batch keeps each row's next run and sanitises its time, and fills in what was missing. */
  lemma QuietRunKeepsRows(z: Zone, rows: seq<Row>, ids: seq<nat>, now: nat, j: nat)
    requires SoundZone(z) && j < |rows| && !AfterTick(z, rows, ids, now).1
    ensures var after := AfterTick(z, rows, ids, now).0;
            j < |after| && TidyOf(z, now, rows[j], after[j])
  {
    var all := rows + Missing(z, rows, ids, now);
    TidiedTable(z, all, |all|, now);
  }

  /**
   * The jobs of a batch by group and effective mode: Vpn devices in one job per group, JumpHost devices each on its
   * own, and all others on their own too, the n-th of them 2 n seconds after the start.
   */
  lemma BatchByMode(targets: seq<Target>, bastionOf: Target -> string, stagger: nat)
    requires NoDup(Ids(targets))
    ensures var b := BatchOf(targets, bastionOf, stagger);
            && Defers(b.vpn, targets, WantsVpn, false)
            && (forall x :: x in JumpIds(b) <==> exists t | t in targets :: t.id == x && WantsJump(t))
            && (forall x :: x in DirectIds(b) <==>
                  exists t | t in targets :: t.id == x && !WantsJump(t) && !WantsVpn(t))
            && (forall i | 0 <= i < |b.direct| :: b.direct[i].1 == 2 * i)
  {
    forall t ensures (RouteOf(t) == ByVpn <==> WantsVpn(t)) && (RouteOf(t) == ByJump <==> WantsJump(t)) {
      RouteExactly(t);
    }
    BatchParts(targets, bastionOf, stagger);
    PayloadDefers(targets, ByVpn, WantsVpn, false);
    forall x ensures x in Ids(OnRoute(targets, ByJump)) <==> exists t | t in targets :: t.id == x && WantsJump(t) {
      OnRouteIds(targets, ByJump, x);
    }
    forall x
      ensures x in Ids(DirectTargets(targets)) <==>
                exists t | t in targets :: t.id == x && !WantsJump(t) && !WantsVpn(t)
    {
      DirectIdsHave(targets, x);
    }
  }

  lemma DirectIdsHave(targets: seq<Target>, x: nat)
    ensures x in Ids(DirectTargets(targets)) <==>
              exists t | t in targets :: t.id == x && RouteOf(t) != ByVpn && RouteOf(t) != ByJump
  {
    IdsHave(DirectTargets(targets), x);
    forall t ensures t in DirectTargets(targets) <==> t in targets && RouteOf(t) != ByVpn && RouteOf(t) != ByJump {
      DirectHas(targets, t);
    }
  }

  /** Of the times shared by the most rows the one that is seen first is the tenant's. */
  lemma MostCommonIsFirst(times: seq<string>) returns (i: nat)
    requires times != []
    ensures i < |times| && times[i] == MostCommon(times)
    ensures forall j | 0 <= j < i :: CountOf(times, times[j]) < CountOf(times, times[i])
  {
    FirstSeenShape(times);
    assert times[0] in FirstSeen(times);
    var k := TopIsFirst(times, FirstSeen(times));
    i := SeenAt(times, k);
    forall j | 0 <= j < i ensures CountOf(times, times[j]) < CountOf(times, times[i]) {
      var m :| 0 <= m < k && FirstSeen(times)[..k][m] == times[j];
    }
  }

  lemma {:induction false} TopIsFirst(times: seq<string>, keys: seq<string>) returns (k: nat)
    requires keys != []
    ensures k < |keys| && keys[k] == Top(times, keys)
    ensures forall j | 0 <= j < k :: CountOf(times, keys[j]) < CountOf(times, keys[k])
    decreases |keys|
  {
    var n := |keys| - 1;
    k := n;
    if n > 0 {
      TopShape(times, keys[..n]);
      var before := TopIsFirst(times, keys[..n]);
      if CountOf(times, keys[n]) <= CountOf(times, Top(times, keys[..n])) {
        k := before;
      } else {
        forall j | 0 <= j < n ensures CountOf(times, keys[j]) < CountOf(times, keys[n]) {
          assert keys[j] in keys[..n];
        }
      }
    }
  }

  /** Where the k-th distinct time is seen first; all before it are earlier ones. */
  lemma {:induction false} SeenAt(times: seq<string>, k: nat) returns (i: nat)
    requires k < |FirstSeen(times)|
    ensures i < |times| && times[i] == FirstSeen(times)[k]
    ensures forall j | 0 <= j < i :: times[j] in FirstSeen(times)[..k]
    decreases |times|
  {
    var n := |times| - 1;
    var before := FirstSeen(times[..n]);
    if k < |before| {
      i := SeenAt(times[..n], k);
      assert FirstSeen(times)[..k] == before[..k];
      forall j | 0 <= j < i ensures times[j] in FirstSeen(times)[..k] {
        assert times[..n][j] == times[j];
      }
    } else {
      i := n;
      FirstSeenShape(times[..n]);
      assert FirstSeen(times) == before + [times[n]] && FirstSeen(times)[..k] == before;
      forall j | 0 <= j < n ensures times[j] in before {
        assert times[j] in times[..n];
      }
    }
  }

  /** After a batch every row runs next at the first occurrence of its time after the second that follows. */
  lemma NextBatchIsNextOccurrence(rows: seq<Row>, ids: seq<nat>, now: nat)
    requires AfterTick(AppZone(), rows, ids, now).1
    ensures forall row | row in AfterTick(AppZone(), rows, ids, now).0 :: RunsNext(row, now + SECOND)
  {
    var z := AppZone();
    var all := rows + Missing(z, rows, ids, now);
    var tidied := Tidied(z, all, |all|, now);
    RescheduledRows(z, tidied, now);
    forall row | row in Rescheduled(z, tidied, now) ensures RunsNext(row, now + SECOND) {
      FirstOccurrence(row, now + SECOND);
    }
  }

  /** The row's next run is the first occurrence of its time after the reference, and comes within a day. */
  ghost predicate RunsNext(row: Row, reference: nat) {
    && row.nextRun.Some? && row.nextRun.value <= reference + DAY
    && IsFirst(Daily, SanitizedClock(row.time, Clock(2, 0)), reference, row.nextRun.value)
  }

  lemma FirstOccurrence(row: Row, reference: nat)
    requires row.nextRun == Some(AppZone().nextDaily(row.time, reference))
    ensures RunsNext(row, reference)
  {
    DailyIsFirst(row.time, reference);
  }

  lemma RescheduledRows(z: Zone, rows: seq<Row>, now: nat)
    ensures forall row | row in Rescheduled(z, rows, now) ::
              row.time == TenantTime(z, rows) && row.nextRun == Some(z.nextDaily(TenantTime(z, rows), now + SECOND))
  {
  }

  /** The rows that have a time all have this one. */
  predicate OneTime(z: Zone, rows: seq<Row>, time: string) {
    forall i | 0 <= i < |rows| :: rows[i].time == "" || z.sanitize(rows[i].time) == time
  }

  predicate SomeTime(rows: seq<Row>) {
    exists i | 0 <= i < |rows| :: rows[i].time != ""
  }

  lemma {:induction false} TimesOfOne(z: Zone, rows: seq<Row>, time: string)
    requires OneTime(z, rows, time)
    ensures forall t | t in TimesOf(z, rows) :: t == time
    ensures SomeTime(rows) ==> TimesOf(z, rows) != []
    decreases |rows|
  {
    if rows != [] {
      var k := |rows| - 1;
      TimesOfOne(z, rows[..k], time);
      if SomeTime(rows) && rows[k].time == "" {
        var i :| 0 <= i < |rows| && rows[i].time != "";
        assert rows[..k][i].time != "";
      }
    }
  }

  lemma TenantTimeOfOne(z: Zone, rows: seq<Row>, time: string)
    requires OneTime(z, rows, time) && SomeTime(rows)
    ensures TenantTime(z, rows) == time
  {
    TimesOfOne(z, rows, time);
    MostCommonIsMost(TimesOf(z, rows), TimesOf(z, rows)[0]);
  }

  /** And the first n rows do have it. */
  predicate Unified(z: Zone, rows: seq<Row>, time: string, n: nat) {
    OneTime(z, rows, time) && SomeTime(rows) && forall i | 0 <= i < |rows| && i < n :: rows[i].time == time
  }

  lemma TidyTime(z: Zone, rows: seq<Row>, time: string, n: nat, now: nat)
    requires n < |rows| && OneTime(z, rows, time) && SomeTime(rows)
    ensures Tidy(z, rows, n, now).time == time
  {
    TenantTimeOfOne(z, rows, time);
  }

  lemma UnifiedNext(z: Zone, rows: seq<Row>, time: string, n: nat, row: Row)
    requires z.sanitize(time) == time != "" && n < |rows| && row.time == time && Unified(z, rows, time, n)
    ensures Unified(z, rows[n := row], time, n + 1)
  {
    assert rows[n := row][n].time != "";
  }

  /** A row without a time gets the time the tenant's other rows have. */
  lemma {:induction false} MissingTimeIsTenants(z: Zone, rows: seq<Row>, time: string, n: nat, now: nat)
    requires SoundZone(z) && z.sanitize(time) == time != "" && n <= |rows|
    requires OneTime(z, rows, time) && SomeTime(rows)
    ensures Unified(z, Tidied(z, rows, n, now), time, n)
    decreases n
  {
    if n > 0 {
      var before := Tidied(z, rows, n - 1, now);
      MissingTimeIsTenants(z, rows, time, n - 1, now);
      TidyTime(z, before, time, n - 1, now);
      UnifiedNext(z, before, time, n - 1, Tidy(z, before, n - 1, now));
    }
  }
}
