/** The sliding-window circuit breaker of a Jump Host (app/tasks/backups.py). Times are milliseconds of one clock. */
module CircuitBreaker {
  import opened Binary64

  datatype Outcome = Outcome(ok: bool, at: nat)

  /** CB_WINDOW_SECONDS, CB_THRESHOLD_PERCENT, CB_MIN_SAMPLES and CB_OPEN_SECONDS within their configured bounds. */
  datatype Settings = Settings(window: nat, threshold: nat, minSamples: nat, open: nat) {
    predicate Valid() {
      60 <= window <= 900 && 30 <= threshold <= 95 && 3 <= minSamples <= 50 && 10 <= open <= 300
    }

    function WindowMs(): nat { window * 1000 }
    function ListTtlMs(): nat { (window + 60) * 1000 }
    function OpenMs(): nat { open * 1000 }
  }

  /** The stored list, its expiry, until when the breaker is open; and, for the specification, all outcomes recorded. */
  datatype View = View(list: seq<Outcome>, listExpiry: nat, openUntil: nat, history: seq<Outcome>)

  datatype Verdict = Admit | Refuse(retryAfter: nat)

  const INITIAL := View([], 0, 0, [])

  /** The outcomes no older than the cutoff. */
  function Recent(s: seq<Outcome>, cutoff: int): seq<Outcome> {
    if s == [] then []
    else Recent(s[..|s| - 1], cutoff) + (if s[|s| - 1].at >= cutoff then [s[|s| - 1]] else [])
  }

  function Failures(s: seq<Outcome>): (n: nat)
    ensures n <= |s|
  {
    if s == [] then 0 else Failures(s[..|s| - 1]) + (if s[|s| - 1].ok then 0 else 1)
  }

  /** Redis returns the list only until it expires. */
  function Live(v: View, now: nat): seq<Outcome> {
    if now < v.listExpiry then v.list else []
  }

  /** The code's test on a window: enough samples, and the float percentage of failures reaches the threshold. */
  predicate Trips(s: Settings, window: seq<Outcome>) {
    |window| >= s.minSamples && window != [] && FloatPercent(Failures(window), |window|) >= s.threshold
  }

  /** The test it is meant to be: at least the threshold percentage failed. */
  predicate TripsExactly(s: Settings, window: seq<Outcome>) {
    |window| >= s.minSamples && 100 * Failures(window) >= s.threshold * |window|
  }

  function RecordStep(s: Settings, v: View, now: nat, ok: bool): View {
    var o := Outcome(ok, now);
    v.(list := Live(v, now) + [o], listExpiry := now + s.ListTtlMs(), history := v.history + [o])
  }

  function Pruned(s: Settings, v: View, now: nat): View {
    var entries := Live(v, now);
    var kept := Recent(entries, now - s.WindowMs());
    if |kept| == |entries| then v
    else v.(list := kept, listExpiry := if kept == [] then 0 else now + s.ListTtlMs())
  }

  function CheckStep(s: Settings, v: View, now: nat): (View, Verdict) {
    if now < v.openUntil then (v, Refuse((v.openUntil - now + 500) / 1000))
    else Counted(s, v, now, Trips(s, Recent(Live(v, now), now - s.WindowMs())))
  }

  /** A check of a closed breaker, by what the counts say. */
  function Counted(s: Settings, v: View, now: nat, trips: bool): (View, Verdict) {
    var w := Pruned(s, v, now);
    if trips then (w.(openUntil := now + s.OpenMs()), Refuse(s.open)) else (w, Admit)
  }

  // ---------------------------------------------------------------- the percentage

  /** The two tests differ on a window exactly when its failures are the threshold percentage and that is 57 or 58. */
  lemma TripsUnlessEqual(s: Settings, window: seq<Outcome>)
    requires s.Valid() && |window| <= MAX_TOTAL
    ensures Trips(s, window) <==>
              TripsExactly(s, window) && (100 * Failures(window) == s.threshold * |window| ==> s.threshold !in {57, 58})
  {
    if window != [] {
      PercentAtLeast(Failures(window), |window|, s.threshold);
    }
  }

  /** k failures of 100. */
  function Hundred(k: nat): seq<Outcome> {
    seq(100, i requires 0 <= i < 100 => Outcome(i >= k, 0))
  }

  lemma {:induction false} HundredFailures(k: nat, n: nat)
    requires k <= 100 && n <= 100
    ensures Failures(Hundred(k)[..n]) == if n <= k then n else k
    decreases n
  {
    if n > 0 {
      HundredFailures(k, n - 1);
      assert Hundred(k)[..n][..n - 1] == Hundred(k)[..n - 1];
    }
  }

  /** The code trips on exactly the windows it should exactly when the threshold is neither 57 nor 58 per cent. */
  lemma ThresholdHonoured(s: Settings)
    requires s.Valid()
    ensures (forall window | |window| <= MAX_TOTAL :: Trips(s, window) <==> TripsExactly(s, window))
       <==> s.threshold !in {57, 58}
  {
    forall window | |window| <= MAX_TOTAL
      ensures s.threshold !in {57, 58} ==> (Trips(s, window) <==> TripsExactly(s, window))
    {
      TripsUnlessEqual(s, window);
    }
    var window := Hundred(s.threshold);
    HundredFailures(s.threshold, 100);
    assert window[..100] == window;
    TripsUnlessEqual(s, window);
    assert TripsExactly(s, window);
    if s.threshold in {57, 58} {
      assert !Trips(s, window);
    }
  }

  lemma RecentNext(s: seq<Outcome>, i: nat, cutoff: int)
    requires i < |s|
    ensures Recent(s[..i + 1], cutoff) == Recent(s[..i], cutoff) + (if s[i].at >= cutoff then [s[i]] else [])
  {
    assert s[..i + 1][..i] == s[..i];
  }

  lemma FailuresNext(s: seq<Outcome>, o: Outcome)
    ensures Failures(s + [o]) == Failures(s) + (if o.ok then 0 else 1)
  {
    assert (s + [o])[..|s|] == s;
  }

  // ---------------------------------------------------------------- the code

  class JumpHostBreaker {
    const settings: Settings
    var outcomes: seq<Outcome>
    var listExpiry: nat
    var openUntil: nat
    ghost var history: seq<Outcome>

    ghost function Contents(): View
      reads this
    {
      View(outcomes, listExpiry, openUntil, history)
    }

    constructor (settings: Settings)
      ensures this.settings == settings && Contents() == INITIAL
    {
      this.settings := settings;
      outcomes, listExpiry, openUntil, history := [], 0, 0, [];
    }

    method Record(now: nat, ok: bool)
      modifies this
      ensures Contents() == RecordStep(settings, old(Contents()), now, ok)
    {
      if now >= listExpiry {
        outcomes := [];
      }
      outcomes := outcomes + [Outcome(ok, now)];
      listExpiry := now + settings.ListTtlMs();
      history := history + [Outcome(ok, now)];
    }

    method Check(now: nat) returns (verdict: Verdict)
      requires settings.Valid()
      modifies this
      ensures (Contents(), verdict) == CheckStep(settings, old(Contents()), now)
    {
      if now < openUntil {
        return Refuse((openUntil - now + 500) / 1000);
      }
      var valid, successes, failures := PruneWindow(now);
      var trips := Decide(valid, successes, failures);
      if trips {
        openUntil := now + settings.OpenMs();
        return Refuse(settings.open);
      }
      return Admit;
    }

    /** Reads the list, counts its entries in the window and drops the others. */
    method PruneWindow(now: nat) returns (valid: seq<Outcome>, successes: nat, failures: nat)
      modifies this
      ensures Contents() == Pruned(settings, old(Contents()), now)
      ensures valid == Recent(Live(old(Contents()), now), now - settings.WindowMs())
      ensures failures == Failures(valid) && successes + failures == |valid|
    {
      var entries := if now < listExpiry then outcomes else [];
      if entries == [] {
        return [], 0, 0;
      }
      valid, successes, failures := CountWindow(entries, now - settings.WindowMs());
      if |valid| < |entries| {
        outcomes := valid;
        listExpiry := if valid == [] then 0 else now + settings.ListTtlMs();
      }
    }

    method Decide(ghost window: seq<Outcome>, successes: nat, failures: nat) returns (trips: bool)
      requires settings.Valid() && failures == Failures(window) && successes + failures == |window|
      ensures trips == Trips(settings, window)
    {
      var total := successes + failures;
      if total < settings.minSamples {
        return false;
      }
      trips := FloatPercent(failures, total) >= settings.threshold;
    }

    method CountWindow(entries: seq<Outcome>, cutoff: int) returns (valid: seq<Outcome>, successes: nat, failures: nat)
      ensures valid == Recent(entries, cutoff) && |valid| <= |entries|
      ensures failures == Failures(valid) && successes + failures == |valid|
    {
      valid, successes, failures := [], 0, 0;
      for i := 0 to |entries|
        invariant valid == Recent(entries[..i], cutoff) && |valid| <= i
        invariant failures == Failures(valid) && successes + failures == |valid|
      {
        RecentNext(entries, i, cutoff);
        if entries[i].at >= cutoff {
          FailuresNext(valid, entries[i]);
          valid := valid + [entries[i]];
          if entries[i].ok {
            successes := successes + 1;
          } else {
            failures := failures + 1;
          }
        }
      }
      assert entries[..|entries|] == entries;
    }

    /** reset_circuit_breakers_for_new_batch deletes both keys; what was recorded before no longer counts. */
    method Reset()
      modifies this
      ensures Contents() == INITIAL
    {
      outcomes, listExpiry, openUntil, history := [], 0, 0, [];
    }
  }

  // ---------------------------------------------------------------- runs

  datatype Event = Record(now: nat, ok: bool) | Check(now: nat) | Reset(now: nat)

  function Apply(s: Settings, v: View, e: Event): View {
    match e
    case Record(now, ok) => RecordStep(s, v, now, ok)
    case Check(now) => CheckStep(s, v, now).0
    case Reset(_) => INITIAL
  }

  /** The last time of a run. */
  function Clock(events: seq<Event>): nat {
    if events == [] then 0 else events[|events| - 1].now
  }

  /** One monotone clock. */
  predicate Clocked(events: seq<Event>) {
    events == [] || (Clocked(events[..|events| - 1]) && Clock(events[..|events| - 1]) <= events[|events| - 1].now)
  }

  function Run(s: Settings, events: seq<Event>): View {
    if events == [] then INITIAL
    else Apply(s, Run(s, events[..|events| - 1]), events[|events| - 1])
  }

  lemma {:induction false} RecentOfRecent(h: seq<Outcome>, c: int, d: int)
    requires c <= d
    ensures Recent(Recent(h, c), d) == Recent(h, d)
  {
    if h != [] {
      var front := h[..|h| - 1];
      RecentOfRecent(front, c, d);
      var r := Recent(h, c);
      if h[|h| - 1].at >= c {
        assert r[..|r| - 1] == Recent(front, c);
      } else {
        assert r == Recent(front, c);
      }
    }
  }

  lemma RecentOfAppend(h: seq<Outcome>, o: Outcome, c: int)
    ensures Recent(h + [o], c) == Recent(h, c) + (if o.at >= c then [o] else [])
  {
    assert (h + [o])[..|h|] == h;
  }

  lemma {:induction false} RecentIsAll(h: seq<Outcome>, c: int)
    ensures |Recent(h, c)| <= |h|
    ensures |Recent(h, c)| == |h| ==> Recent(h, c) == h
  {
    if h != [] {
      RecentIsAll(h[..|h| - 1], c);
    }
  }

  lemma {:induction false} RecentIsNone(h: seq<Outcome>, c: int)
    ensures Recent(h, c) == [] <==> forall o | o in h :: o.at < c
  {
    if h != [] {
      var front := h[..|h| - 1];
      RecentIsNone(front, c);
      assert forall o :: o in h <==> o in front || o == h[|h| - 1];
    }
  }

  lemma {:induction false} RecentElements(h: seq<Outcome>, c: int)
    ensures forall o :: o in Recent(h, c) <==> o in h && o.at >= c
  {
    if h != [] {
      var front := h[..|h| - 1];
      RecentElements(front, c);
      assert forall o :: o in h <==> o in front || o == h[|h| - 1];
    }
  }

  /** Nothing is recorded in the future, and the list outlives the window of each of its entries. */
  ghost predicate TimesFit(s: Settings, v: View, clock: nat) {
    && (forall o | o in v.history :: o.at <= clock)
    && (forall o | o in v.list :: o.at <= clock && o.at + s.ListTtlMs() <= v.listExpiry)
  }

  /** The stored list and the full history agree on every window that a check from now on can ask for. */
  ghost predicate Agrees(s: Settings, v: View, clock: nat) {
    forall cutoff: int :: cutoff >= clock - s.WindowMs() ==> Recent(Live(v, clock), cutoff) == Recent(v.history, cutoff)
  }

  /** The opening is owed to an outcome that was in the window when the breaker tripped. */
  ghost predicate OpeningOwed(s: Settings, v: View) {
    v.openUntil > 0 ==> exists o :: o in v.history && v.openUntil <= o.at + s.WindowMs() + s.OpenMs()
  }

  ghost predicate Sound(s: Settings, v: View, clock: nat) {
    TimesFit(s, v, clock) && Agrees(s, v, clock) && OpeningOwed(s, v)
  }

  lemma AgreesLater(s: Settings, v: View, clock: nat, now: nat)
    requires Agrees(s, v, clock) && TimesFit(s, v, clock) && clock <= now
    ensures Agrees(s, v, now)
  {
    forall cutoff: int | cutoff >= now - s.WindowMs()
      ensures Recent(Live(v, now), cutoff) == Recent(v.history, cutoff)
    {
      assert Recent(Live(v, clock), cutoff) == Recent(v.history, cutoff);
      if now >= v.listExpiry && clock < v.listExpiry {
        RecentIsNone(v.list, cutoff);
      }
    }
  }

  lemma RecordAgrees(s: Settings, v: View, now: nat, ok: bool)
    requires Agrees(s, v, now)
    ensures Agrees(s, RecordStep(s, v, now, ok), now)
  {
    var o := Outcome(ok, now);
    forall cutoff: int | cutoff >= now - s.WindowMs()
      ensures Recent(Live(v, now) + [o], cutoff) == Recent(v.history + [o], cutoff)
    {
      RecentOfAppend(Live(v, now), o, cutoff);
      RecentOfAppend(v.history, o, cutoff);
    }
  }

  lemma RecordSound(s: Settings, v: View, now: nat, ok: bool)
    requires Sound(s, v, now)
    ensures Sound(s, RecordStep(s, v, now, ok), now)
  {
    RecordAgrees(s, v, now, ok);
    if v.openUntil > 0 {
      var x :| x in v.history && v.openUntil <= x.at + s.WindowMs() + s.OpenMs();
      assert x in v.history + [Outcome(ok, now)];
    }
  }

  lemma PrunedAgrees(s: Settings, v: View, now: nat)
    requires Agrees(s, v, now)
    ensures Agrees(s, Pruned(s, v, now), now)
  {
    var c := now - s.WindowMs();
    var entries := Live(v, now);
    var w := Pruned(s, v, now);
    forall cutoff: int | cutoff >= c ensures Recent(Live(w, now), cutoff) == Recent(v.history, cutoff) {
      RecentOfRecent(entries, c, cutoff);
      assert Recent(entries, cutoff) == Recent(v.history, cutoff);
    }
  }

  lemma PrunedTimesFit(s: Settings, v: View, now: nat)
    requires TimesFit(s, v, now)
    ensures TimesFit(s, Pruned(s, v, now), now)
  {
    RecentElements(Live(v, now), now - s.WindowMs());
  }

  lemma CheckIsCounted(s: Settings, v: View, now: nat) returns (trips: bool)
    requires s.Valid() && now >= v.openUntil
    ensures CheckStep(s, v, now) == Counted(s, v, now, trips)
    ensures trips ==> Recent(Live(v, now), now - s.WindowMs()) != []
  {
    trips := Trips(s, Recent(Live(v, now), now - s.WindowMs()));
  }

  lemma CheckSound(s: Settings, v: View, now: nat)
    requires s.Valid() && Sound(s, v, now)
    ensures Sound(s, CheckStep(s, v, now).0, now)
  {
    if now >= v.openUntil {
      var trips := CheckIsCounted(s, v, now);
      CountedSound(s, v, now, trips);
    }
  }

  lemma CountedSound(s: Settings, v: View, now: nat, trips: bool)
    requires s.Valid() && Sound(s, v, now)
    requires trips ==> Recent(Live(v, now), now - s.WindowMs()) != []
    ensures Sound(s, Counted(s, v, now, trips).0, now)
  {
    var c := now - s.WindowMs();
    PrunedAgrees(s, v, now);
    PrunedTimesFit(s, v, now);
    if trips {
      assert Recent(Live(v, now), c) == Recent(v.history, c);
      RecentElements(v.history, c);
      var o := Recent(v.history, c)[0];
      assert o in Recent(v.history, c);
      assert now + s.OpenMs() <= o.at + s.WindowMs() + s.OpenMs();
    }
  }

  lemma {:induction false} RunSound(s: Settings, events: seq<Event>)
    requires s.Valid() && Clocked(events)
    ensures Sound(s, Run(s, events), Clock(events))
    decreases |events|
  {
    if events != [] {
      var front, e := events[..|events| - 1], events[|events| - 1];
      var v := Run(s, front);
      RunSound(s, front);
      AgreesLater(s, v, Clock(front), e.now);
      match e {
        case Record(now, ok) => RecordSound(s, v, now, ok);
        case Check(now) => CheckSound(s, v, now);
        case Reset(_) => assert Sound(s, INITIAL, e.now);
      }
    }
  }

  // ---------------------------------------------------------------- the promises

  /** The pruned list a check reads has in its window exactly what the full history has. */
  lemma WindowIsHistory(s: Settings, events: seq<Event>, now: nat)
    requires s.Valid() && Clocked(events) && Clock(events) <= now
    ensures var v := Run(s, events);
            Recent(Live(v, now), now - s.WindowMs()) == Recent(v.history, now - s.WindowMs())
  {
    RunSound(s, events);
    AgreesLater(s, Run(s, events), Clock(events), now);
  }

  lemma VerdictAt(s: Settings, v: View, now: nat)
    requires s.Valid() && Recent(Live(v, now), now - s.WindowMs()) == Recent(v.history, now - s.WindowMs())
    ensures CheckStep(s, v, now).1.Refuse? <==> now < v.openUntil || Trips(s, Recent(v.history, now - s.WindowMs()))
  {
  }

  lemma OpeningEnds(s: Settings, v: View, t: nat)
    requires OpeningOwed(s, v) && forall o | o in v.history :: o.at <= t
    ensures v.openUntil <= t + s.WindowMs() + s.OpenMs()
  {
  }

  /** A check refuses exactly when the breaker is still open or the full history, cut to the last window, trips it. */
  lemma CheckMatchesHistory(s: Settings, events: seq<Event>, now: nat)
    requires s.Valid() && Clocked(events) && Clock(events) <= now
    ensures var v := Run(s, events);
            CheckStep(s, v, now).1.Refuse? <==> now < v.openUntil || Trips(s, Recent(v.history, now - s.WindowMs()))
  {
    WindowIsHistory(s, events, now);
    VerdictAt(s, Run(s, events), now);
  }

  /** In exact numbers: a threshold of 57 or 58 per cent met exactly is missed, else the percentage decides. */
  lemma CheckMatchesPercentage(s: Settings, events: seq<Event>, now: nat)
    requires s.Valid() && Clocked(events) && Clock(events) <= now
    requires |Recent(Run(s, events).history, now - s.WindowMs())| <= MAX_TOTAL
    ensures var v := Run(s, events);
            var w := Recent(v.history, now - s.WindowMs());
            CheckStep(s, v, now).1.Refuse? <==>
              || now < v.openUntil
              || (TripsExactly(s, w) && (100 * Failures(w) == s.threshold * |w| ==> s.threshold !in {57, 58}))
  {
    CheckMatchesHistory(s, events, now);
    TripsUnlessEqual(s, Recent(Run(s, events).history, now - s.WindowMs()));
  }

  /** If nothing was recorded after time t, every check from t + window + opening on admits. */
  lemma NoLockoutForever(s: Settings, events: seq<Event>, t: nat, now: nat)
    requires s.Valid() && Clocked(events) && Clock(events) <= now
    requires forall o | o in Run(s, events).history :: o.at <= t
    requires now >= t + s.WindowMs() + s.OpenMs()
    ensures CheckStep(s, Run(s, events), now).1 == Admit
  {
    WindowIsHistory(s, events, now);
    RunSound(s, events);
    QuietAdmits(s, Run(s, events), t, now);
  }

  lemma QuietAdmits(s: Settings, v: View, t: nat, now: nat)
    requires s.Valid() && Recent(Live(v, now), now - s.WindowMs()) == Recent(v.history, now - s.WindowMs())
    requires OpeningOwed(s, v) && forall o | o in v.history :: o.at <= t
    requires now >= t + s.WindowMs() + s.OpenMs()
    ensures CheckStep(s, v, now).1 == Admit
  {
    OpeningEnds(s, v, t);
    RecentIsNone(v.history, now - s.WindowMs());
    VerdictAt(s, v, now);
  }

  /** A check made while the breaker is open changes nothing, and any check opens it for at most one full opening. */
  lemma OpenCheckChangesNothing(s: Settings, v: View, now: nat)
    ensures now < v.openUntil ==> CheckStep(s, v, now).0 == v && CheckStep(s, v, now).1.Refuse?
    ensures CheckStep(s, v, now).0.openUntil in {v.openUntil, now + s.OpenMs()}
    ensures CheckStep(s, v, now).0.history == v.history
  {
  }

  // ---------------------------------------------------------------- the breaker by its verdicts

  /** The outcomes recorded since the last reset. */
  function Recorded(events: seq<Event>): seq<Outcome> {
    if events == [] then []
    else
      var before := Recorded(events[..|events| - 1]);
      match events[|events| - 1]
      case Record(now, ok) => before + [Outcome(ok, now)]
      case Check(_) => before
      case Reset(_) => []
  }

  /** The verdict of a check made at `now` after these events. */
  function VerdictOf(s: Settings, events: seq<Event>, now: nat): Verdict {
    CheckStep(s, Run(s, events), now).1
  }

  /** Until when the breaker is open: each check that refuses while it is closed opens it for the opening time. */
  function OpenUntil(s: Settings, events: seq<Event>): nat {
    if events == [] then 0
    else
      var front := events[..|events| - 1];
      match events[|events| - 1]
      case Record(_, _) => OpenUntil(s, front)
      case Check(now) =>
        if now >= OpenUntil(s, front) && VerdictOf(s, front, now).Refuse? then now + s.open * 1000
        else OpenUntil(s, front)
      case Reset(_) => 0
  }

  lemma {:induction false} RunByVerdicts(s: Settings, events: seq<Event>)
    ensures Run(s, events).openUntil == OpenUntil(s, events) && Run(s, events).history == Recorded(events)
    decreases |events|
  {
    if events != [] {
      var front := events[..|events| - 1];
      RunByVerdicts(s, front);
      if events[|events| - 1].Check? {
        CheckOpens(s, Run(s, front), events[|events| - 1].now);
      }
    }
  }

  lemma CheckOpens(s: Settings, v: View, now: nat)
    ensures var (w, verdict) := CheckStep(s, v, now);
            && w.history == v.history
            && w.openUntil == if now >= v.openUntil && verdict.Refuse? then now + s.open * 1000 else v.openUntil
  {
  }

  /**
   * Over any run of records, checks and resets: a check refuses exactly while an earlier refusal keeps the breaker
   * open, or when the outcomes recorded within the last window trip it. It names the rest of the opening, rounded to
   * seconds, or the whole of it.
   */
  lemma RefusesExactly(s: Settings, events: seq<Event>, now: nat)
    requires s.Valid() && Clocked(events) && Clock(events) <= now
    ensures VerdictOf(s, events, now)
         == if now < OpenUntil(s, events) then Refuse((OpenUntil(s, events) - now + 500) / 1000)
            else if Trips(s, Recent(Recorded(events), now - s.window * 1000)) then Refuse(s.open)
            else Admit
  {
    RunByVerdicts(s, events);
    WindowIsHistory(s, events, now);
    RefusesFrom(s, Run(s, events), Recorded(events), OpenUntil(s, events), now);
  }

  lemma RefusesFrom(s: Settings, v: View, history: seq<Outcome>, openUntil: nat, now: nat)
    requires v.openUntil == openUntil && v.history == history
    requires Recent(Live(v, now), now - s.WindowMs()) == Recent(v.history, now - s.WindowMs())
    ensures CheckStep(s, v, now).1
         == if now < openUntil then Refuse((openUntil - now + 500) / 1000)
            else if Trips(s, Recent(history, now - s.window * 1000)) then Refuse(s.open)
            else Admit
  {
    var w := Recent(history, now - s.window * 1000);
    VerdictBy(s, v, now, w, Trips(s, w));
  }

  lemma VerdictBy(s: Settings, v: View, now: nat, w: seq<Outcome>, trips: bool)
    requires w == Recent(Live(v, now), now - s.WindowMs()) && trips == Trips(s, w)
    ensures CheckStep(s, v, now).1
         == if now < v.openUntil then Refuse((v.openUntil - now + 500) / 1000)
            else if trips then Refuse(s.open)
            else Admit
  {
  }

  predicate NoReset(events: seq<Event>) {
    forall i | 0 <= i < |events| :: !events[i].Reset?
  }

  lemma {:induction false} StaysOpen(s: Settings, events: seq<Event>, more: seq<Event>)
    requires NoReset(more) && Clocked(events + more)
    requires forall i | 0 <= i < |more| :: more[i].now < OpenUntil(s, events)
    ensures OpenUntil(s, events + more) == OpenUntil(s, events)
    decreases |more|
  {
    if more == [] {
      assert events + more == events;
    } else {
      var front, last := more[..|more| - 1], more[|more| - 1];
      assert (events + more)[..|events + more| - 1] == events + front;
      assert (events + more)[|events + more| - 1] == last;
      StaysOpen(s, events, front);
    }
  }

  /**
   * A refusal of a closed breaker at t opens it: every check until t + opening refuses, whatever is recorded and
   * checked in between, and names the time that is left; from then on the window decides again.
   */
  lemma RefusalOpens(s: Settings, events: seq<Event>, t: nat, more: seq<Event>, now: nat)
    requires s.Valid() && Clocked(events + [Check(t)] + more) && Clock(events + [Check(t)] + more) <= now
    requires t >= OpenUntil(s, events) && VerdictOf(s, events, t).Refuse?
    requires NoReset(more) && forall i | 0 <= i < |more| :: more[i].now < t + s.open * 1000
    ensures VerdictOf(s, events, t) == Refuse(s.open)
    ensures var run := events + [Check(t)] + more;
            VerdictOf(s, run, now)
            == if now < t + s.open * 1000 then Refuse((t + s.open * 1000 - now + 500) / 1000)
               else if Trips(s, Recent(Recorded(run), now - s.window * 1000)) then Refuse(s.open)
               else Admit
  {
    var tripped := events + [Check(t)];
    assert tripped[..|tripped| - 1] == events;
    StaysOpen(s, tripped, more);
    RefusesExactly(s, tripped + more, now);
    ClockedFront(tripped, more);
    RefusesExactly(s, events, t);
  }

  lemma {:induction false} ClockedFront(events: seq<Event>, more: seq<Event>)
    requires Clocked(events + more) && events != []
    ensures Clocked(events) && Clocked(events[..|events| - 1])
    ensures Clock(events[..|events| - 1]) <= events[|events| - 1].now
    decreases |more|
  {
    if more == [] {
      assert events + more == events;
    } else {
      assert (events + more)[..|events + more| - 1] == events + more[..|more| - 1];
      ClockedFront(events, more[..|more| - 1]);
    }
  }
}
