/** The adaptive slot controller of a Jump Host (app/tasks/backups.py). Times are seconds of one clock. */
module SlotController {
  import opened Wrappers

  /** The JUMP_HOST_ADAPTIVE_* settings and the slot override of this Jump Host. */
  datatype Settings = Settings(
    enabled: bool, failStreak: nat, severeFailStreak: nat, successStreak: nat,
    cooldown: nat, severeCooldown: nat, streakTtl: nat, maxBoost: nat, dropToOne: bool, override: Option<int>)
  {
    predicate Valid() {
      && 2 <= failStreak <= 20 && 1 <= severeFailStreak <= 10 && 5 <= successStreak <= 200
      && 30 <= cooldown <= 3600 && 30 <= severeCooldown <= 7200 && 60 <= streakTtl <= 7200 && maxBoost <= 8
    }

    function FewestFailures(): nat {
      if failStreak <= severeFailStreak then failStreak else severeFailStreak
    }

    function ShortestCooldown(): nat {
      if cooldown <= severeCooldown then cooldown else severeCooldown
    }
  }

  /** A streak counter with a time to live. */
  datatype Streak = Streak(count: nat, expires: nat) {
    function Live(now: nat): nat { if now < expires then count else 0 }
  }

  /** How a backup through the Jump Host ended. The message tests are left uninterpreted. */
  datatype Result = Success | Failure(saturated: bool, severe: bool)

  /** The Redis keys of one Jump Host. */
  datatype Keys = Keys(dynamic: Option<int>, success: Streak, fail: Streak, cooldownUntil: nat)

  /** What the counters were fed and what they did: counts since the start, change times since the last reset. */
  datatype Log = Log(successes: nat, saturations: nat, raises: nat, drops: nat, changes: seq<nat>)

  const NO_STREAK := Streak(0, 0)
  const INITIAL := Keys(None, NO_STREAK, NO_STREAK, 0)
  const NOTHING := Log(0, 0, 0, 0, [])

  function Clamp(n: int): (r: nat)
    ensures 1 <= r <= 16
  {
    if n < 1 then 1 else if n > 16 then 16 else n
  }

  function Resolve(s: Settings, k: Keys, base: int): (r: nat)
    ensures 1 <= r <= 16
  {
    if s.enabled && k.dynamic.Some? then Clamp(k.dynamic.value)
    else Clamp(if s.override.Some? then s.override.value else base)
  }

  function Ceiling(s: Settings, base: int): nat {
    Clamp((if base < 1 then 1 else base) + s.maxBoost)
  }

  function OnSuccess(s: Settings, k: Keys, l: Log, now: nat, base: int): (Keys, Log) {
    var current := Resolve(s, k, base);
    var streak := k.success.Live(now) + 1;
    var fed := l.(successes := l.successes + 1);
    if streak >= s.successStreak && current < Ceiling(s, base) then
      (Keys(Some(current + 1), NO_STREAK, NO_STREAK, now + s.cooldown),
       fed.(raises := l.raises + 1, changes := l.changes + [now]))
    else (k.(success := Streak(streak, now + s.streakTtl), fail := NO_STREAK), fed)
  }

  function OnSaturation(s: Settings, k: Keys, l: Log, now: nat, base: int, severe: bool): (Keys, Log) {
    var current := Resolve(s, k, base);
    var streak := k.fail.Live(now) + 1;
    var hard := severe && streak >= s.severeFailStreak;
    var fed := l.(saturations := l.saturations + 1);
    if current > 1 && (streak >= s.failStreak || hard) then
      var slots := if hard then (if s.dropToOne || current <= 3 then 1 else current - 2) else current - 1;
      (Keys(Some(slots), NO_STREAK, NO_STREAK, now + (if hard then s.severeCooldown else s.cooldown)),
       fed.(drops := l.drops + 1, changes := l.changes + [now]))
    else (k.(fail := Streak(streak, now + s.streakTtl), success := NO_STREAK), fed)
  }

  function AdaptStep(s: Settings, k: Keys, l: Log, now: nat, base: int, r: Result): (Keys, Log) {
    if !s.enabled || now < k.cooldownUntil then (k, l)
    else match r
      case Success => OnSuccess(s, k, l, now, base)
      case Failure(saturated, severe) => if saturated then OnSaturation(s, k, l, now, base, severe) else (k, l)
  }

  /** The reset before a new batch deletes the streak and cooldown keys; the hash with the slot count survives it. */
  function ResetStep(k: Keys, l: Log): (Keys, Log) {
    (INITIAL.(dynamic := k.dynamic), l.(changes := []))
  }

  // ---------------------------------------------------------------- the code

  class JumpHostSlots {
    const settings: Settings
    var dynamic: Option<int>
    var success: Streak
    var fail: Streak
    var cooldownUntil: nat
    ghost var log: Log

    function Contents(): Keys
      reads this
    {
      Keys(dynamic, success, fail, cooldownUntil)
    }

    constructor (settings: Settings)
      ensures this.settings == settings && Contents() == INITIAL && log == NOTHING
    {
      this.settings := settings;
      dynamic, success, fail, cooldownUntil, log := None, NO_STREAK, NO_STREAK, 0, NOTHING;
    }

    method Adapt(now: nat, baseSlots: int, r: Result)
      modifies this
      ensures (Contents(), log) == AdaptStep(settings, old(Contents()), old(log), now, baseSlots, r)
    {
      if !settings.enabled {
        return;
      }
      var base := if baseSlots < 1 then 1 else baseSlots;
      var allowed := Clamp(base + settings.maxBoost);
      var current := Resolve(settings, Contents(), baseSlots);
      if now < cooldownUntil {
        return;
      }
      if r.Success? {
        var streak := success.Live(now) + 1;
        success := Streak(streak, now + settings.streakTtl);
        fail := NO_STREAK;
        log := log.(successes := log.successes + 1);
        if streak >= settings.successStreak && current < allowed {
          dynamic := Some(if current + 1 < allowed then current + 1 else allowed);
          cooldownUntil := now + settings.cooldown;
          success := NO_STREAK;
          log := log.(raises := log.raises + 1, changes := log.changes + [now]);
        }
        return;
      }
      if !r.saturated {
        return;
      }
      var streak := fail.Live(now) + 1;
      fail := Streak(streak, now + settings.streakTtl);
      success := NO_STREAK;
      log := log.(saturations := log.saturations + 1);
      var severeReached := streak >= settings.severeFailStreak;
      var regularReached := streak >= settings.failStreak;
      if current > 1 && (regularReached || (r.severe && severeReached)) {
        var next, pause := 0, 0;
        if r.severe && severeReached {
          next := if settings.dropToOne then 1 else if current - 2 > 1 then current - 2 else 1;
          pause := settings.severeCooldown;
        } else {
          next := if current - 1 > 1 then current - 1 else 1;
          pause := settings.cooldown;
        }
        dynamic := Some(next);
        cooldownUntil := now + pause;
        fail := NO_STREAK;
        log := log.(drops := log.drops + 1, changes := log.changes + [now]);
      }
    }

    method Reset()
      modifies this
      ensures (Contents(), log) == ResetStep(old(Contents()), old(log))
    {
      success, fail, cooldownUntil := NO_STREAK, NO_STREAK, 0;
      log := log.(changes := []);
    }
  }

  // ---------------------------------------------------------------- runs

  /** base is looked up anew for each result. */
  datatype Event = Adapt(now: nat, base: int, r: Result) | Reset(now: nat)

  function Apply(s: Settings, k: Keys, l: Log, e: Event): (Keys, Log) {
    match e
    case Adapt(now, base, r) => AdaptStep(s, k, l, now, base, r)
    case Reset(_) => ResetStep(k, l)
  }

  function Run(s: Settings, events: seq<Event>): (Keys, Log) {
    if events == [] then (INITIAL, NOTHING)
    else
      var (k, l) := Run(s, events[..|events| - 1]);
      Apply(s, k, l, events[|events| - 1])
  }

  /** Each change of the slot count was paid for by its own streak of results. */
  ghost predicate Paid(s: Settings, k: Keys, l: Log) {
    && l.raises * s.successStreak + k.success.count <= l.successes
    && l.drops * s.FewestFailures() + k.fail.count <= l.saturations
  }

  /** The two streaks exclude each other. */
  predicate OneStreak(k: Keys) {
    k.success.count == 0 || k.fail.count == 0
  }

  /** Changes are a cooldown apart, and the cooldown of the last one is still stored. */
  ghost predicate Spaced(s: Settings, k: Keys, l: Log) {
    && (forall i, j | 0 <= i < j < |l.changes| :: l.changes[j] - l.changes[i] >= s.ShortestCooldown())
    && (forall i | 0 <= i < |l.changes| :: l.changes[i] + s.ShortestCooldown() <= k.cooldownUntil)
  }

  predicate InRange(k: Keys) {
    k.dynamic.Some? ==> 1 <= k.dynamic.value <= 16
  }

  lemma Charge(n: nat, price: nat, streak: nat, paid: nat)
    requires n * price + (streak - 1) <= paid && streak >= price && streak >= 1
    ensures (n + 1) * price <= paid + 1
  {
    assert (n + 1) * price == n * price + price;
  }

  lemma StepPaid(s: Settings, k: Keys, l: Log, now: nat, base: int, r: Result)
    requires s.Valid() && Paid(s, k, l)
    ensures Paid(s, AdaptStep(s, k, l, now, base, r).0, AdaptStep(s, k, l, now, base, r).1)
  {
    var up, down := k.success.Live(now) + 1, k.fail.Live(now) + 1;
    if up >= s.successStreak {
      Charge(l.raises, s.successStreak, up, l.successes);
    }
    if down >= s.FewestFailures() {
      Charge(l.drops, s.FewestFailures(), down, l.saturations);
    }
  }

  /** Raises and drops never outnumber the streaks that were recorded for them, in any run. */
  lemma {:induction false} ChangesArePaid(s: Settings, events: seq<Event>)
    requires s.Valid()
    ensures Paid(s, Run(s, events).0, Run(s, events).1)
    decreases |events|
  {
    if events != [] {
      var front := events[..|events| - 1];
      var (k, l) := Run(s, front);
      ChangesArePaid(s, front);
      match events[|events| - 1] {
        case Adapt(now, base, r) => StepPaid(s, k, l, now, base, r);
        case Reset(_) =>
      }
    }
  }

  lemma {:induction false} RunShape(s: Settings, events: seq<Event>)
    requires s.Valid()
    ensures OneStreak(Run(s, events).0) && InRange(Run(s, events).0)
    decreases |events|
  {
    if events != [] {
      RunShape(s, events[..|events| - 1]);
    }
  }

  /** In any run the streaks exclude each other and every slot count resolved for any base lies in 1..16. */
  lemma StreaksExclude(s: Settings, events: seq<Event>, now: nat, base: int)
    requires s.Valid()
    ensures var k := Run(s, events).0;
            && !(k.success.Live(now) > 0 && k.fail.Live(now) > 0)
            && 1 <= Resolve(s, k, base) <= 16
            && (s.enabled && k.dynamic.Some? ==> Resolve(s, k, base) == k.dynamic.value)
  {
    RunShape(s, events);
  }

  lemma StepSpaced(s: Settings, k: Keys, l: Log, now: nat, base: int, r: Result)
    requires s.Valid() && Spaced(s, k, l)
    ensures Spaced(s, AdaptStep(s, k, l, now, base, r).0, AdaptStep(s, k, l, now, base, r).1)
  {
  }

  /** In any run, two changes between resets are at least the smaller cooldown apart. */
  lemma {:induction false} ChangesAreSpaced(s: Settings, events: seq<Event>)
    requires s.Valid()
    ensures Spaced(s, Run(s, events).0, Run(s, events).1)
    decreases |events|
  {
    if events != [] {
      var front := events[..|events| - 1];
      var (k, l) := Run(s, front);
      ChangesAreSpaced(s, front);
      match events[|events| - 1] {
        case Adapt(now, base, r) => StepSpaced(s, k, l, now, base, r);
        case Reset(_) =>
      }
    }
  }

  /** The slot count moves only with a logged change: a raise adds one below the ceiling, a drop goes strictly down. */
  lemma SlotsMoveOnlyByChanges(s: Settings, k: Keys, l: Log, now: nat, base: int, r: Result)
    requires s.Valid() && s.enabled
    ensures var (k', l') := AdaptStep(s, k, l, now, base, r);
            var before, after := Resolve(s, k, base), Resolve(s, k', base);
            && (l'.changes == l.changes ==> k'.dynamic == k.dynamic)
            && (l'.raises > l.raises ==> after == before + 1 <= Ceiling(s, base) && r.Success?)
            && (l'.drops > l.drops ==> after < before && r.Failure? && r.saturated)
            && l'.raises + l'.drops + |l.changes| == l.raises + l.drops + |l'.changes|
            && (k'.cooldownUntil != k.cooldownUntil ==> now >= k.cooldownUntil)
  {
  }

  /** The reset keeps the slot count learnt so far, although its own description says otherwise. */
  lemma ResetKeepsSlots(s: Settings, events: seq<Event>, now: nat, base: int)
    ensures Resolve(s, Run(s, events + [Reset(now)]).0, base) == Resolve(s, Run(s, events).0, base)
  {
    assert (events + [Reset(now)])[..|events|] == events;
  }

  // ---------------------------------------------------------------- what a full streak does

  /** The keys and the log after the same kind of result at each of these times. */
  function Feed(s: Settings, k: Keys, l: Log, base: int, r: Result, times: seq<nat>): (Keys, Log)
    decreases |times|
  {
    if times == [] then (k, l)
    else
      var (k', l') := AdaptStep(s, k, l, times[0], base, r);
      Feed(s, k', l', base, r, times[1..])
  }

  /** The times rise, and no gap lets the streak expire. */
  predicate Steady(times: seq<nat>, ttl: nat) {
    forall i | 0 < i < |times| :: times[i - 1] <= times[i] < times[i - 1] + ttl
  }

  lemma SteadyTail(times: seq<nat>, ttl: nat)
    requires Steady(times, ttl) && |times| > 1
    ensures Steady(times[1..], ttl) && times[0] <= times[1] < times[0] + ttl
  {
  }

  /** The slots resolve to the stored count, else to the override, else to the base, within 1 and 16. */
  lemma ResolveExactly(s: Settings, k: Keys, base: int)
    ensures var n := if s.enabled && k.dynamic.Some? then k.dynamic.value
                     else if s.override.Some? then s.override.value else base;
            && (1 <= n <= 16 ==> Resolve(s, k, base) == n)
            && (n < 1 ==> Resolve(s, k, base) == 1) && (n > 16 ==> Resolve(s, k, base) == 16)
    ensures base >= 1 && base + s.maxBoost <= 16 ==> Ceiling(s, base) == base + s.maxBoost
    ensures base + s.maxBoost > 16 ==> Ceiling(s, base) == 16
  {
  }

  /**
   * Below the ceiling and outside a cooldown the success that completes the streak, and none before it, raises the
   * count by one, starts the regular cooldown and begins the streaks anew.
   */
  lemma {:induction false} FullStreakRaises(s: Settings, k: Keys, l: Log, base: int, times: seq<nat>)
    requires s.Valid() && s.enabled && times != [] && Steady(times, s.streakTtl) && times[0] >= k.cooldownUntil
    requires Resolve(s, k, base) < Ceiling(s, base)
    requires k.success.Live(times[0]) + |times| <= s.successStreak
    ensures var k' := Feed(s, k, l, base, Success, times).0;
            var last := times[|times| - 1];
            if k.success.Live(times[0]) + |times| == s.successStreak then
              k' == Keys(Some(Resolve(s, k, base) + 1), NO_STREAK, NO_STREAK, last + s.cooldown)
            else
              && k'.dynamic == k.dynamic && k'.cooldownUntil == k.cooldownUntil && k'.fail == NO_STREAK
              && k'.success == Streak(k.success.Live(times[0]) + |times|, last + s.streakTtl)
    decreases |times|
  {
    if |times| > 1 {
      SteadyTail(times, s.streakTtl);
      var (k', l') := AdaptStep(s, k, l, times[0], base, Success);
      FullStreakRaises(s, k', l', base, times[1..]);
    }
  }

  /** At the ceiling no success raises the count. */
  lemma NoRaiseAtCeiling(s: Settings, k: Keys, l: Log, base: int, now: nat)
    requires Resolve(s, k, base) >= Ceiling(s, base)
    ensures AdaptStep(s, k, l, now, base, Success).0.dynamic == k.dynamic
  {
  }

  /** How many saturations in a row lower the count. */
  function DropAfter(s: Settings, severe: bool): nat {
    if severe && s.severeFailStreak < s.failStreak then s.severeFailStreak else s.failStreak
  }

  /** A severe streak that is as short as a regular one, or shorter, drops hard. */
  predicate DropsHard(s: Settings, severe: bool) {
    severe && s.severeFailStreak <= s.failStreak
  }

  /**
   * Above one slot and outside a cooldown the saturation that completes the streak, and none before it, lowers the
   * count: by one with the regular cooldown, or, when severe, by two or to one with the severe cooldown.
   */
  lemma {:induction false} FullStreakDrops(s: Settings, k: Keys, l: Log, base: int, severe: bool, times: seq<nat>)
    requires s.Valid() && s.enabled && times != [] && Steady(times, s.streakTtl) && times[0] >= k.cooldownUntil
    requires Resolve(s, k, base) > 1
    requires k.fail.Live(times[0]) + |times| <= DropAfter(s, severe)
    ensures var k' := Feed(s, k, l, base, Failure(true, severe), times).0;
            var last := times[|times| - 1];
            var before := Resolve(s, k, base);
            if k.fail.Live(times[0]) + |times| < DropAfter(s, severe) then
              && k'.dynamic == k.dynamic && k'.cooldownUntil == k.cooldownUntil && k'.success == NO_STREAK
              && k'.fail == Streak(k.fail.Live(times[0]) + |times|, last + s.streakTtl)
            else if !DropsHard(s, severe) then
              k' == Keys(Some(before - 1), NO_STREAK, NO_STREAK, last + s.cooldown)
            else
              && k'.dynamic == Some(if s.dropToOne || before == 2 then 1 else before - 2)
              && k'.success == NO_STREAK && k'.fail == NO_STREAK && k'.cooldownUntil == last + s.severeCooldown
    decreases |times|
  {
    if |times| > 1 {
      SteadyTail(times, s.streakTtl);
      var (k', l') := AdaptStep(s, k, l, times[0], base, Failure(true, severe));
      FullStreakDrops(s, k', l', base, severe, times[1..]);
    }
  }

  /** Results within a cooldown, failures that are no saturation, and a switched-off controller change nothing. */
  lemma Ignored(s: Settings, k: Keys, l: Log, base: int, now: nat, r: Result)
    requires now < k.cooldownUntil || !s.enabled || (r.Failure? && !r.saturated)
    ensures AdaptStep(s, k, l, now, base, r) == (k, l)
  {
  }

  /** A success ends a streak of saturations, and a saturation one of successes. */
  lemma StreaksBreak(s: Settings, k: Keys, l: Log, base: int, now: nat, severe: bool)
    requires s.enabled && now >= k.cooldownUntil
    ensures AdaptStep(s, k, l, now, base, Success).0.fail == NO_STREAK
    ensures AdaptStep(s, k, l, now, base, Failure(true, severe)).0.success == NO_STREAK
  {
  }

  /** After a reset no streak and no cooldown is left: the next result counts as the first of its streak. */
  lemma ResetBeginsAnew(s: Settings, k: Keys, l: Log, now: nat)
    ensures var k' := ResetStep(k, l).0;
            k'.success.Live(now) == 0 && k'.fail.Live(now) == 0 && k'.cooldownUntil <= now && k'.dynamic == k.dynamic
  {
  }
}
