/** One realtime log list with its counter (app/services/realtime_backup_logs.py): a task's list, or the global one. */
module LogStream {
  import opened Wrappers

  /** number is the sequence field the list is read by; stamp is the parsed timestamp, None if unreadable. */
  datatype Entry = Entry(number: nat, tenant: string, stamp: Option<int>, text: string)

  /** What is stored under one list index: an entry, or text that does not parse. */
  datatype Raw = Junk | Log(entry: Entry)

  datatype Page = Page(entries: seq<Entry>, lastSeq: nat)

  // ---------------------------------------------------------------- what a reader asks for

  /** An empty tenant asks for all tenants. */
  predicate Wanted(r: Raw, after: nat, tenant: string) {
    r.Log? && r.entry.number > after && (tenant == "" || r.entry.tenant == tenant)
  }

  /** The wanted entries from list position p on. */
  function Matching(list: seq<Raw>, p: nat, after: nat, tenant: string): seq<Entry>
    requires p <= |list|
    decreases |list| - p
  {
    if p == |list| then []
    else (if Wanted(list[p], after, tenant) then [list[p].entry] else []) + Matching(list, p + 1, after, tenant)
  }

  function TakeLast(s: seq<Entry>, limit: int): seq<Entry> {
    if limit <= 0 then [] else if |s| <= limit then s else s[|s| - limit..]
  }

  /** The newest `limit` wanted entries, and where the reader goes on from. */
  function Answer(list: seq<Raw>, counter: nat, after: nat, limit: int, tenant: string): Page {
    if counter > 0 && after >= counter then Page([], counter)
    else
      var entries := TakeLast(Matching(list, 0, after, tenant), limit);
      Page(entries, if entries == [] then after else entries[|entries| - 1].number)
  }

  ghost predicate Increasing(list: seq<Raw>) {
    forall i, j | 0 <= i < j < |list| && list[i].Log? && list[j].Log? :: list[i].entry.number < list[j].entry.number
  }

  ghost predicate Rising(s: seq<Entry>) {
    forall i, j | 0 <= i < j < |s| :: s[i].number < s[j].number
  }

  function Reverse(s: seq<Entry>): seq<Entry> {
    if s == [] then [] else Reverse(s[1..]) + [s[0]]
  }

  lemma {:induction false} MatchingElements(list: seq<Raw>, p: nat, after: nat, tenant: string)
    requires p <= |list|
    ensures forall e :: e in Matching(list, p, after, tenant) <==> Log(e) in list[p..] && Wanted(Log(e), after, tenant)
    decreases |list| - p
  {
    if p < |list| {
      MatchingElements(list, p + 1, after, tenant);
      assert list[p..] == [list[p]] + list[p + 1..];
    }
  }

  lemma {:induction false} MatchingRises(list: seq<Raw>, p: nat, after: nat, tenant: string)
    requires p <= |list| && Increasing(list)
    ensures Rising(Matching(list, p, after, tenant))
    ensures forall i, e | 0 <= i < p && list[i].Log? && e in Matching(list, p, after, tenant) ::
              list[i].entry.number < e.number
    decreases |list| - p
  {
    MatchingElements(list, p, after, tenant);
    forall i, e | 0 <= i < p && list[i].Log? && e in Matching(list, p, after, tenant)
      ensures list[i].entry.number < e.number
    {
      var j :| p <= j < |list| && list[j] == Log(e);
    }
    if p < |list| {
      MatchingRises(list, p + 1, after, tenant);
    }
  }

  lemma {:induction false} SkipUnwanted(list: seq<Raw>, q: nat, p: nat, after: nat, tenant: string)
    requires q <= p <= |list| && forall i | q <= i < p :: !Wanted(list[i], after, tenant)
    ensures Matching(list, q, after, tenant) == Matching(list, p, after, tenant)
    decreases p - q
  {
    if q < p {
      SkipUnwanted(list, q + 1, p, after, tenant);
    }
  }

  /** Before an entry that is not newer than the cursor nothing is wanted. */
  lemma NothingBefore(list: seq<Raw>, p: nat, after: nat, tenant: string)
    requires p < |list| && Increasing(list) && list[p].Log? && list[p].entry.number <= after
    ensures Matching(list, 0, after, tenant) == Matching(list, p + 1, after, tenant)
  {
    forall i | 0 <= i < p + 1 ensures !Wanted(list[i], after, tenant) {
      assert i < p && list[i].Log? ==> list[i].entry.number < list[p].entry.number;
    }
    SkipUnwanted(list, 0, p + 1, after, tenant);
  }

  lemma {:induction false} MatchingIsSuffix(list: seq<Raw>, q: nat, p: nat, after: nat, tenant: string)
    requires q <= p <= |list|
    ensures var all, tail := Matching(list, q, after, tenant), Matching(list, p, after, tenant);
            |tail| <= |all| && all[|all| - |tail|..] == tail
    decreases p - q
  {
    if q < p {
      MatchingIsSuffix(list, q + 1, p, after, tenant);
      var next, tail := Matching(list, q + 1, after, tenant), Matching(list, p, after, tenant);
      var all := Matching(list, q, after, tenant);
      assert all[|all| - |next|..] == next;
      assert all[|all| - |tail|..] == next[|next| - |tail|..];
    }
  }

  lemma {:induction false} ReverseLast(s: seq<Entry>, x: Entry)
    ensures Reverse(s + [x]) == [x] + Reverse(s)
    decreases |s|
  {
    if s == [] {
      assert s + [x] == [x] && [x][1..] == [];
    } else {
      assert (s + [x])[1..] == s[1..] + [x];
      ReverseLast(s[1..], x);
    }
  }

  lemma {:induction false} ReverseTwice(s: seq<Entry>)
    ensures Reverse(Reverse(s)) == s && |Reverse(s)| == |s|
    decreases |s|
  {
    if s != [] {
      ReverseTwice(s[1..]);
      ReverseLast(Reverse(s[1..]), s[0]);
    }
  }

  // ---------------------------------------------------------------- the chunked backward scan

  /** Where the scan stands: positions from p on are read, newest first; done says it need not go on. */
  ghost predicate Scanned(
      list: seq<Raw>, p: nat, after: nat, limit: int, tenant: string, newest: seq<Entry>, lastSeq: nat, done: bool)
  {
    && p <= |list| && newest == Reverse(Matching(list, p, after, tenant))
    && lastSeq == (if newest == [] then after else newest[0].number)
    && (|newest| > 0 ==> |newest| <= limit)
    && (done ==> Matching(list, 0, after, tenant) == Matching(list, p, after, tenant))
  }

  /** The inner loop reads an entry that is not newer than the cursor. */
  lemma ScanBoundary(
      list: seq<Raw>, p: nat, after: nat, limit: int, tenant: string, newest: seq<Entry>, lastSeq: nat)
    requires Increasing(list) && 0 < p && Scanned(list, p, after, limit, tenant, newest, lastSeq, false)
    requires list[p - 1].Log? && list[p - 1].entry.number <= after
    ensures Scanned(list, p, after, limit, tenant, newest, lastSeq, true)
  {
    NothingBefore(list, p - 1, after, tenant);
  }

  /** It reads an entry that is not wanted. */
  lemma ScanSkip(
      list: seq<Raw>, p: nat, after: nat, limit: int, tenant: string, newest: seq<Entry>, lastSeq: nat)
    requires 0 < p && Scanned(list, p, after, limit, tenant, newest, lastSeq, false)
    requires !Wanted(list[p - 1], after, tenant)
    ensures Scanned(list, p - 1, after, limit, tenant, newest, lastSeq, false)
  {
    assert [] + Matching(list, p, after, tenant) == Matching(list, p, after, tenant);
  }

  /** It reads a wanted entry. */
  lemma ScanTake(
      list: seq<Raw>, p: nat, after: nat, limit: int, tenant: string, newest: seq<Entry>, lastSeq: nat)
    requires Increasing(list) && 0 < p && Scanned(list, p, after, limit, tenant, newest, lastSeq, false)
    requires |newest| < limit && Wanted(list[p - 1], after, tenant)
    ensures newest != [] ==> list[p - 1].entry.number < lastSeq
    ensures Scanned(list, p - 1, after, limit, tenant, newest + [list[p - 1].entry],
                    if newest == [] then list[p - 1].entry.number else lastSeq, false)
  {
    if newest != [] {
      var m := Matching(list, p, after, tenant);
      MatchingRises(list, p, after, tenant);
      assert newest[0] in m by { ReverseElements(m); assert newest[0] in newest; }
    }
  }

  lemma {:induction false} ReverseElements(s: seq<Entry>)
    ensures forall e :: e in Reverse(s) <==> e in s
    decreases |s|
  {
    if s != [] {
      ReverseElements(s[1..]);
      assert s == [s[0]] + s[1..];
    }
  }

  lemma {:induction false} ReverseFirst(s: seq<Entry>)
    requires s != []
    ensures Reverse(s) != [] && Reverse(s)[0] == s[|s| - 1]
    decreases |s|
  {
    if |s| > 1 {
      ReverseFirst(s[1..]);
    }
  }

  lemma SuffixIsLast(all: seq<Entry>, m: seq<Entry>, limit: int)
    requires |m| <= |all| && all[|all| - |m|..] == m && (|m| > 0 ==> |m| <= limit)
    requires all == m || |m| >= limit
    ensures TakeLast(all, limit) == m
  {
  }

  lemma ScanEnds(
      list: seq<Raw>, p: nat, after: nat, limit: int, tenant: string, newest: seq<Entry>, lastSeq: nat, done: bool)
    requires Scanned(list, p, after, limit, tenant, newest, lastSeq, done)
    requires done || p == 0 || |newest| >= limit
    ensures var entries := Reverse(newest);
            && entries == TakeLast(Matching(list, 0, after, tenant), limit)
            && lastSeq == if entries == [] then after else entries[|entries| - 1].number
  {
    var m := Matching(list, p, after, tenant);
    ReverseTwice(m);
    MatchingIsSuffix(list, 0, p, after, tenant);
    SuffixIsLast(Matching(list, 0, after, tenant), m, limit);
    if m != [] {
      ReverseFirst(m);
    }
  }

  /** The inner loop: reads one chunk, newest entry first, until it is exhausted or the scan may stop. */
  method ScanChunk(
      list: seq<Raw>, start: nat, end: nat, after: nat, limit: int, tenant: string, newest0: seq<Entry>, lastSeq0: nat)
    returns (newest: seq<Entry>, lastSeq: nat, reachedBoundary: bool, ghost p: nat)
    requires Increasing(list) && start <= end < |list| && |newest0| < limit
    requires Scanned(list, end + 1, after, limit, tenant, newest0, lastSeq0, false)
    ensures Scanned(list, p, after, limit, tenant, newest, lastSeq, reachedBoundary)
    ensures reachedBoundary || |newest| >= limit || p == start
  {
    newest, lastSeq, reachedBoundary := newest0, lastSeq0, false;
    var i := end + 1;
    while i > start && |newest| < limit
      invariant start <= i <= end + 1
      invariant Scanned(list, i, after, limit, tenant, newest, lastSeq, false)
    {
      var r := list[i - 1];
      if r.Log? && r.entry.number <= after {
        ScanBoundary(list, i, after, limit, tenant, newest, lastSeq);
        return newest, lastSeq, true, i;
      }
      if !Wanted(r, after, tenant) {
        ScanSkip(list, i, after, limit, tenant, newest, lastSeq);
      } else {
        ScanTake(list, i, after, limit, tenant, newest, lastSeq);
        newest := newest + [r.entry];
        if r.entry.number > lastSeq {
          lastSeq := r.entry.number;
        }
      }
      i := i - 1;
    }
    p := i;
  }

  /** The outer loop over chunks, from the end of the list towards its head. */
  method ScanChunks(list: seq<Raw>, after: nat, limit: int, tenant: string) returns (entries: seq<Entry>, lastSeq: nat)
    requires Increasing(list) && list != []
    ensures entries == TakeLast(Matching(list, 0, after, tenant), limit)
    ensures lastSeq == if entries == [] then after else entries[|entries| - 1].number
  {
    var chunkSize := if limit * 4 >= 500 then limit * 4 else 500;
    var end: int := |list| - 1;
    lastSeq := after;
    var newest: seq<Entry> := [];
    var reachedBoundary := false;
    ghost var p: nat := |list|;
    while end >= 0 && |newest| < limit && !reachedBoundary
      invariant -1 <= end < |list|
      invariant Scanned(list, p, after, limit, tenant, newest, lastSeq, reachedBoundary)
      invariant reachedBoundary || |newest| >= limit || p == end + 1
      decreases end + 1
    {
      var start := if end - chunkSize + 1 > 0 then end - chunkSize + 1 else 0;
      newest, lastSeq, reachedBoundary, p := ScanChunk(list, start, end, after, limit, tenant, newest, lastSeq);
      if start == 0 {
        break;
      }
      end := start - 1;
    }
    ScanEnds(list, p, after, limit, tenant, newest, lastSeq, reachedBoundary);
    entries := Reverse(newest);
  }

  method ScanRecentEntries(list: seq<Raw>, counter: nat, after: nat, limit: int, tenant: string) returns (page: Page)
    requires Increasing(list)
    ensures page == Answer(list, counter, after, limit, tenant)
  {
    if counter > 0 && after >= counter {
      return Page([], counter);
    }
    var total := |list|;
    if total <= 0 {
      return Page([], after);
    }
    var entries, lastSeq := ScanChunks(list, after, limit, tenant);
    page := Page(entries, lastSeq);
  }

  // ---------------------------------------------------------------- the stored list

  /** The list, and for the specification every entry ever appended; the counter is how many those are. */
  datatype Stored = Stored(list: seq<Raw>, history: seq<Entry>)

  /** What the age rule removes: unreadable text, entries without a timestamp, entries before the cutoff. */
  predicate Overdue(r: Raw, cutoff: int) {
    r.Junk? || r.entry.stamp.None? || r.entry.stamp.value < cutoff
  }

  function DropOverdue(list: seq<Raw>, cutoff: int): seq<Raw> {
    if list != [] && Overdue(list[0], cutoff) then DropOverdue(list[1..], cutoff) else list
  }

  /** LTRIM key -max -1. */
  function Trim(list: seq<Raw>, max: nat): seq<Raw> {
    if |list| <= max then list else list[|list| - max..]
  }

  function WithoutTenant(list: seq<Raw>, tenant: string): seq<Raw> {
    if list == [] then []
    else
      var last := list[|list| - 1];
      WithoutTenant(list[..|list| - 1], tenant) + (if last.Log? && last.entry.tenant == tenant then [] else [last])
  }

  function AppendStep(st: Stored, max: nat, tenant: string, stamp: Option<int>, text: string, cutoff: Option<int>)
    : Stored
  {
    var e := Entry(|st.history| + 1, tenant, stamp, text);
    var pushed := st.list + [Log(e)];
    Stored(Trim(if cutoff.Some? then DropOverdue(pushed, cutoff.value) else pushed, max), st.history + [e])
  }

  /** The list holds entries of the history, oldest first. */
  ghost predicate Well(st: Stored) {
    && (forall i | 0 <= i < |st.history| :: st.history[i].number == i + 1)
    && Increasing(st.list)
    && (forall r | r in st.list && r.Log? ::
          1 <= r.entry.number <= |st.history| && st.history[r.entry.number - 1] == r.entry)
  }

  class LogList {
    const maxEntries: nat
    var list: seq<Raw>
    var counter: nat
    ghost var history: seq<Entry>

    ghost function Contents(): Stored
      reads this
    {
      Stored(list, history)
    }

    ghost predicate Valid()
      reads this
    {
      counter == |history| && Well(Contents())
    }

    constructor (maxEntries: nat)
      ensures Valid() && this.maxEntries == maxEntries && Contents() == Stored([], [])
    {
      this.maxEntries := maxEntries;
      list, counter, history := [], 0, [];
    }

    /** The part of append_task_log for one list; cutoff is given when the age rule is due. */
    method Append(tenant: string, stamp: Option<int>, text: string, cutoff: Option<int>)
      requires Valid()
      modifies this
      ensures Valid() && Contents() == AppendStep(old(Contents()), maxEntries, tenant, stamp, text, cutoff)
    {
      AppendWell(Contents(), maxEntries, tenant, stamp, text, cutoff);
      counter := counter + 1;
      var e := Entry(counter, tenant, stamp, text);
      history := history + [e];
      list := list + [Log(e)];
      if cutoff.Some? {
        PopOverdue(cutoff.value);
      }
      if |list| > maxEntries {
        list := list[|list| - maxEntries..];
      }
    }

    method PopOverdue(cutoff: int)
      modifies this`list
      ensures list == DropOverdue(old(list), cutoff)
    {
      while list != [] && Overdue(list[0], cutoff)
        invariant DropOverdue(list, cutoff) == DropOverdue(old(list), cutoff)
        decreases |list|
      {
        list := list[1..];
      }
    }

    method ClearTenant(tenant: string) returns (removed: nat)
      requires Valid()
      modifies this`list
      ensures Valid() && Contents() == Stored(WithoutTenant(old(list), tenant), old(history))
      ensures removed == |old(list)| - |list|
    {
      ClearWell(Contents(), tenant);
      var rawEntries := list;
      var kept: seq<Raw> := [];
      removed := 0;
      for i := 0 to |rawEntries|
        invariant kept == WithoutTenant(rawEntries[..i], tenant)
        invariant removed + |kept| == i
      {
        var r := rawEntries[i];
        ClearNext(rawEntries, i, tenant);
        if r.Log? && r.entry.tenant == tenant {
          removed := removed + 1;
        } else {
          kept := kept + [r];
        }
      }
      assert rawEntries[..|rawEntries|] == rawEntries;
      list := kept;
    }

    method Read(after: nat, limit: int, tenant: string) returns (page: Page)
      requires Valid()
      ensures page == Answer(list, counter, after, limit, tenant)
    {
      page := ScanRecentEntries(list, counter, after, limit, tenant);
    }
  }

  // ---------------------------------------------------------------- what keeps the list in order

  lemma TailWell(st: Stored, k: nat)
    requires Well(st) && k <= |st.list|
    ensures Well(Stored(st.list[k..], st.history)) && Later(st, Stored(st.list[k..], st.history))
  {
    var list := st.list[k..];
    forall i, j | 0 <= i < j < |list| && list[i].Log? && list[j].Log?
      ensures list[i].entry.number < list[j].entry.number
    {
      assert list[i] == st.list[k + i] && list[j] == st.list[k + j];
    }
  }

  lemma {:induction false} DropOverdueIsSuffix(list: seq<Raw>, cutoff: int) returns (k: nat)
    ensures k <= |list| && DropOverdue(list, cutoff) == list[k..]
    ensures forall i | 0 <= i < k :: Overdue(list[i], cutoff)
    ensures k < |list| ==> !Overdue(list[k], cutoff)
    decreases |list|
  {
    if list != [] && Overdue(list[0], cutoff) {
      k := DropOverdueIsSuffix(list[1..], cutoff);
      forall i | 0 <= i < k + 1 ensures Overdue(list[i], cutoff) {
        assert i > 0 ==> list[i] == list[1..][i - 1];
      }
      assert list[1..][k..] == list[k + 1..];
      k := k + 1;
    } else {
      k := 0;
    }
  }

  lemma PushedWell(st: Stored, tenant: string, stamp: Option<int>, text: string)
    requires Well(st)
    ensures var e := Entry(|st.history| + 1, tenant, stamp, text);
            var pushed := Stored(st.list + [Log(e)], st.history + [e]);
            Well(pushed) && Later(st, pushed)
  {
    var e := Entry(|st.history| + 1, tenant, stamp, text);
    var list := st.list + [Log(e)];
    forall i, j | 0 <= i < j < |list| && list[i].Log? && list[j].Log?
      ensures list[i].entry.number < list[j].entry.number
    {
      assert list[i] in st.list;
    }
  }

  lemma TrimWell(st: Stored, max: nat)
    requires Well(st)
    ensures Well(Stored(Trim(st.list, max), st.history)) && Later(st, Stored(Trim(st.list, max), st.history))
  {
    if |st.list| > max {
      TailWell(st, |st.list| - max);
    }
  }

  lemma PruneWell(st: Stored, cutoff: int)
    requires Well(st)
    ensures Well(Stored(DropOverdue(st.list, cutoff), st.history))
    ensures Later(st, Stored(DropOverdue(st.list, cutoff), st.history))
  {
    var k := DropOverdueIsSuffix(st.list, cutoff);
    TailWell(st, k);
  }

  lemma AppendWell(st: Stored, max: nat, tenant: string, stamp: Option<int>, text: string, cutoff: Option<int>)
    requires Well(st)
    ensures Well(AppendStep(st, max, tenant, stamp, text, cutoff))
    ensures Later(st, AppendStep(st, max, tenant, stamp, text, cutoff))
  {
    var e := Entry(|st.history| + 1, tenant, stamp, text);
    var pushed := Stored(st.list + [Log(e)], st.history + [e]);
    PushedWell(st, tenant, stamp, text);
    var kept := pushed;
    if cutoff.Some? {
      PruneWell(pushed, cutoff.value);
      kept := Stored(DropOverdue(pushed.list, cutoff.value), pushed.history);
    }
    TrimWell(kept, max);
    LaterTransitive(st, pushed, kept);
    LaterTransitive(st, kept, AppendStep(st, max, tenant, stamp, text, cutoff));
  }

  lemma ClearNext(list: seq<Raw>, i: nat, tenant: string)
    requires i < |list|
    ensures WithoutTenant(list[..i + 1], tenant)
         == WithoutTenant(list[..i], tenant)
            + (if list[i].Log? && list[i].entry.tenant == tenant then [] else [list[i]])
  {
    assert list[..i + 1][..i] == list[..i];
  }

  lemma {:induction false} ClearElements(list: seq<Raw>, tenant: string)
    requires Increasing(list)
    ensures forall r :: r in WithoutTenant(list, tenant) <==> r in list && !(r.Log? && r.entry.tenant == tenant)
    ensures Increasing(WithoutTenant(list, tenant))
    decreases |list|
  {
    if list != [] {
      var k := |list| - 1;
      var front := list[..k];
      ClearElements(front, tenant);
      assert list == front + [list[k]];
      var kept, w := WithoutTenant(front, tenant), WithoutTenant(list, tenant);
      forall r | r in kept && r.Log? && list[k].Log? ensures r.entry.number < list[k].entry.number {
        var x :| 0 <= x < k && front[x] == r;
        assert list[x] == r;
      }
      forall i, j | 0 <= i < j < |w| && w[i].Log? && w[j].Log? ensures w[i].entry.number < w[j].entry.number {
        assert w[i] == kept[i] && w[i] in kept;
      }
    }
  }

  lemma ClearWell(st: Stored, tenant: string)
    requires Well(st)
    ensures Well(Stored(WithoutTenant(st.list, tenant), st.history))
    ensures Later(st, Stored(WithoutTenant(st.list, tenant), st.history))
  {
    ClearElements(st.list, tenant);
  }

  // ---------------------------------------------------------------- successive polls

  /** What any number of appends, trims and removals can make of a list: old entries may go but never come back. */
  ghost predicate Later(st: Stored, now: Stored) {
    && st.history <= now.history
    && forall r | r in now.list && r.Log? && r.entry.number <= |st.history| :: r in st.list
  }

  lemma LaterTransitive(a: Stored, b: Stored, c: Stored)
    requires Later(a, b) && Later(b, c)
    ensures Later(a, c)
  {
  }

  function Ask(st: Stored, after: nat, limit: int, tenant: string): Page {
    Answer(st.list, |st.history|, after, limit, tenant)
  }

  lemma TakeLastRises(m: seq<Entry>, limit: int)
    requires Rising(m)
    ensures var t := TakeLast(m, limit);
            && Rising(t)
            && forall e | e in t :: e in m && e.number <= t[|t| - 1].number
  {
    var t := TakeLast(m, limit);
    var k := |m| - |t|;
    forall i, j | 0 <= i < j < |t| ensures t[i].number < t[j].number {
      assert t[i] == m[k + i] && t[j] == m[k + j];
    }
    forall i | 0 <= i < |t| ensures t[i] in m && t[i].number <= t[|t| - 1].number {
      assert t[i] == m[k + i];
    }
  }

  /** One answer: wanted entries in rising order, all newer than the cursor and none newer than the next cursor. */
  lemma AnswerRises(st: Stored, after: nat, limit: int, tenant: string)
    requires Well(st) && after <= |st.history|
    ensures var page := Ask(st, after, limit, tenant);
            && Rising(page.entries)
            && (forall e | e in page.entries ::
                  after < e.number <= page.lastSeq && Log(e) in st.list && Wanted(Log(e), after, tenant))
            && after <= page.lastSeq <= |st.history|
  {
    var m := Matching(st.list, 0, after, tenant);
    MatchingRises(st.list, 0, after, tenant);
    MatchingElements(st.list, 0, after, tenant);
    assert st.list[0..] == st.list;
    TakeLastRises(m, limit);
    var entries := TakeLast(m, limit);
    if entries != [] {
      assert entries[|entries| - 1] in entries;
    }
  }

  /** With a positive limit an answer leaves no wanted entry of the list behind the new cursor. */
  lemma NothingLeft(st: Stored, after: nat, limit: int, tenant: string, r: Raw)
    requires Well(st) && limit >= 1 && r in st.list && after <= |st.history|
    ensures !Wanted(r, Ask(st, after, limit, tenant).lastSeq, tenant)
  {
    if Wanted(r, after, tenant) {
      var m := Matching(st.list, 0, after, tenant);
      MatchingElements(st.list, 0, after, tenant);
      MatchingRises(st.list, 0, after, tenant);
      assert st.list[0..] == st.list;
      assert r.entry in m;
      assert TakeLast(m, limit)[|TakeLast(m, limit)| - 1] == m[|m| - 1];
    } else {
      AnswerRises(st, after, limit, tenant);
    }
  }

  function RawOf(entries: seq<Entry>): seq<Raw> {
    seq(|entries|, i requires 0 <= i < |entries| => Log(entries[i]))
  }

  /** Two rising sequences with the same elements are the same. */
  lemma {:induction false} RisingUnique(a: seq<Entry>, b: seq<Entry>)
    requires Rising(a) && Rising(b) && forall e :: e in a <==> e in b
    ensures a == b
    decreases |a|
  {
    if b != [] {
      assert b[0] in b;
    }
    if a != [] {
      assert a[0] in a;
      var i :| 0 <= i < |b| && b[i] == a[0];
      var j :| 0 <= j < |a| && a[j] == b[0];
      assert i == 0 && j == 0;
      forall e ensures e in a[1..] <==> e in b[1..] {
        assert a == [a[0]] + a[1..] && b == [b[0]] + b[1..];
        if e in a[1..] { assert e in a; }
        if e in b[1..] { assert e in b; }
      }
      RisingUnique(a[1..], b[1..]);
    }
  }

  /** All that a reader receives who polls each of the states in turn, going on from the cursor of the last answer. */
  function Delivered(states: seq<Stored>, after: nat, limit: int, tenant: string): seq<Entry> {
    if states == [] then []
    else
      var page := Ask(states[0], after, limit, tenant);
      page.entries + Delivered(states[1..], page.lastSeq, limit, tenant)
  }

  ghost predicate Evolving(states: seq<Stored>) {
    && (forall i | 0 <= i < |states| :: Well(states[i]))
    && (forall i | 0 < i < |states| :: Later(states[i - 1], states[i]))
  }

  lemma RisingConcat(a: seq<Entry>, b: seq<Entry>, cursor: nat)
    requires Rising(a) && Rising(b)
    requires (forall e | e in a :: e.number <= cursor) && (forall e | e in b :: e.number > cursor)
    ensures Rising(a + b)
  {
    var all := a + b;
    forall i, j | 0 <= i < j < |all| ensures all[i].number < all[j].number {
      if i < |a| <= j {
        assert all[i] in a && all[j] in b;
      }
    }
  }

  /** However the list evolves between polls, a reader receives entries in order and none twice. */
  lemma {:induction false} PollsRise(states: seq<Stored>, after: nat, limit: int, tenant: string)
    requires Evolving(states) && (states != [] ==> after <= |states[0].history|)
    ensures Rising(Delivered(states, after, limit, tenant))
    ensures forall e | e in Delivered(states, after, limit, tenant) :: e.number > after
    decreases |states|
  {
    if states != [] {
      var page := Ask(states[0], after, limit, tenant);
      AnswerRises(states[0], after, limit, tenant);
      var rest := states[1..];
      assert Evolving(rest) by {
        forall i | 0 <= i < |rest| ensures Well(rest[i]) && (i > 0 ==> Later(rest[i - 1], rest[i])) {
          assert rest[i] == states[i + 1];
          assert i > 0 ==> Later(states[i], states[i + 1]);
        }
      }
      if rest != [] {
        assert Later(states[0], states[1]);
      }
      PollsRise(rest, page.lastSeq, limit, tenant);
      RisingConcat(page.entries, Delivered(rest, page.lastSeq, limit, tenant), page.lastSeq);
    }
  }

  /** What happens to one list while a reader polls it. */
  datatype ListEvent =
    | Appended(tenant: string, stamp: Option<int>, text: string, cutoff: Option<int>)
    | Cleared(tenant: string)
    | Polled

  function AfterEvent(st: Stored, max: nat, e: ListEvent): Stored {
    match e
    case Appended(tenant, stamp, text, cutoff) => AppendStep(st, max, tenant, stamp, text, cutoff)
    case Cleared(tenant) => Stored(WithoutTenant(st.list, tenant), st.history)
    case Polled => st
  }

  function AfterEvents(st: Stored, max: nat, events: seq<ListEvent>): Stored
    decreases |events|
  {
    if events == [] then st else AfterEvents(AfterEvent(st, max, events[0]), max, events[1..])
  }

  /** Everything the reader receives over the run, each poll going on from the cursor of the one before. */
  function Received(st: Stored, max: nat, events: seq<ListEvent>, after: nat, limit: int, tenant: string): seq<Entry>
    decreases |events|
  {
    if events == [] then []
    else if events[0].Polled? then
      var page := Ask(st, after, limit, tenant);
      page.entries + Received(st, max, events[1..], page.lastSeq, limit, tenant)
    else Received(AfterEvent(st, max, events[0]), max, events[1..], after, limit, tenant)
  }

  lemma EventWell(st: Stored, max: nat, e: ListEvent)
    requires Well(st)
    ensures Well(AfterEvent(st, max, e)) && Later(st, AfterEvent(st, max, e))
  {
    match e
    case Appended(tenant, stamp, text, cutoff) => AppendWell(st, max, tenant, stamp, text, cutoff);
    case Cleared(tenant) => ClearWell(st, tenant);
    case Polled =>
  }

  lemma {:induction false} EventsWell(st: Stored, max: nat, events: seq<ListEvent>)
    requires Well(st)
    ensures Well(AfterEvents(st, max, events)) && Later(st, AfterEvents(st, max, events))
    decreases |events|
  {
    if events != [] {
      var next := AfterEvent(st, max, events[0]);
      EventWell(st, max, events[0]);
      EventsWell(next, max, events[1..]);
      LaterTransitive(st, next, AfterEvents(next, max, events[1..]));
    }
  }

  /** In any run of appends, prunings, clears and polls a reader receives strictly rising entries, none twice. */
  lemma {:induction false} ReaderRises(st: Stored, max: nat, events: seq<ListEvent>, after: nat, limit: int,
                                       tenant: string)
    requires Well(st) && after <= |st.history|
    ensures Rising(Received(st, max, events, after, limit, tenant))
    ensures forall e | e in Received(st, max, events, after, limit, tenant) :: e.number > after
    decreases |events|
  {
    if events != [] {
      if events[0].Polled? {
        var page := Ask(st, after, limit, tenant);
        AnswerRises(st, after, limit, tenant);
        ReaderRises(st, max, events[1..], page.lastSeq, limit, tenant);
        RisingConcat(page.entries, Received(st, max, events[1..], page.lastSeq, limit, tenant), page.lastSeq);
      } else {
        EventWell(st, max, events[0]);
        ReaderRises(AfterEvent(st, max, events[0]), max, events[1..], after, limit, tenant);
      }
    }
  }

  /** The wanted entries appended between two states. */
  function Arrived(st: Stored, now: Stored, tenant: string): seq<Entry> {
    Matching(RawOf(now.history), 0, |st.history|, tenant)
  }

  lemma HistoryElements(st: Stored)
    requires Well(st)
    ensures Increasing(RawOf(st.history))
    ensures forall e :: Log(e) in RawOf(st.history) <==> 1 <= e.number <= |st.history| && st.history[e.number - 1] == e
  {
    var raw := RawOf(st.history);
    forall e ensures Log(e) in raw <==> 1 <= e.number <= |st.history| && st.history[e.number - 1] == e {
      if Log(e) in raw {
        var i :| 0 <= i < |raw| && raw[i] == Log(e);
        assert st.history[i].number == i + 1;
      }
      if 1 <= e.number <= |st.history| && st.history[e.number - 1] == e {
        assert raw[e.number - 1] == Log(e);
      }
    }
  }

  lemma ArrivedElements(st: Stored, now: Stored, tenant: string)
    requires Well(now)
    ensures Rising(Arrived(st, now, tenant))
    ensures forall e :: e in Arrived(st, now, tenant) <==>
              1 <= e.number <= |now.history| && now.history[e.number - 1] == e && Wanted(Log(e), |st.history|, tenant)
  {
    var raw := RawOf(now.history);
    HistoryElements(now);
    MatchingElements(raw, 0, |st.history|, tenant);
    MatchingRises(raw, 0, |st.history|, tenant);
    assert raw[0..] == raw;
  }

  /** A cursor behind which nothing wanted was left sees exactly what arrived since. */
  lemma SeenIsArrived(st: Stored, now: Stored, cursor: nat, tenant: string)
    requires Well(st) && Well(now) && Later(st, now) && cursor <= |st.history|
    requires forall r | r in st.list :: !Wanted(r, cursor, tenant)
    requires forall e | e in Arrived(st, now, tenant) :: Log(e) in now.list
    ensures Matching(now.list, 0, cursor, tenant) == Arrived(st, now, tenant)
  {
    var arrived, seen := Arrived(st, now, tenant), Matching(now.list, 0, cursor, tenant);
    ArrivedElements(st, now, tenant);
    MatchingElements(now.list, 0, cursor, tenant);
    MatchingRises(now.list, 0, cursor, tenant);
    assert now.list[0..] == now.list;
    forall e ensures e in seen <==> e in arrived {
      if e in seen {
        assert Log(e) in now.list && !(Log(e) in st.list);
      }
    }
    RisingUnique(seen, arrived);
  }

  /** Nothing is missed: if at most `limit2` wanted entries arrived and all are still stored, the next poll returns
      exactly those, in order. */
  lemma PollsMissNothing(st: Stored, now: Stored, after: nat, limit: int, limit2: int, tenant: string)
    requires Well(st) && Well(now) && Later(st, now) && after <= |st.history| && limit >= 1
    requires |Arrived(st, now, tenant)| <= limit2
    requires forall e | e in Arrived(st, now, tenant) :: Log(e) in now.list
    ensures Ask(now, Ask(st, after, limit, tenant).lastSeq, limit2, tenant).entries == Arrived(st, now, tenant)
  {
    var cursor := Ask(st, after, limit, tenant).lastSeq;
    AnswerRises(st, after, limit, tenant);
    forall r | r in st.list ensures !Wanted(r, cursor, tenant) {
      NothingLeft(st, after, limit, tenant, r);
    }
    SeenIsArrived(st, now, cursor, tenant);
    ArrivedElements(st, now, tenant);
    var arrived := Arrived(st, now, tenant);
    if arrived != [] {
      assert arrived[0] in arrived;
    }
  }

  /** The same over any run between the two polls. */
  lemma RunMissesNothing(st: Stored, max: nat, events: seq<ListEvent>, after: nat, limit: int, limit2: int,
                         tenant: string)
    requires Well(st) && after <= |st.history| && limit >= 1
    requires var now := AfterEvents(st, max, events);
             && |Arrived(st, now, tenant)| <= limit2
             && forall e | e in Arrived(st, now, tenant) :: Log(e) in now.list
    ensures var now := AfterEvents(st, max, events);
            Ask(now, Ask(st, after, limit, tenant).lastSeq, limit2, tenant).entries == Arrived(st, now, tenant)
  {
    EventsWell(st, max, events);
    PollsMissNothing(st, AfterEvents(st, max, events), after, limit, limit2, tenant);
  }

  // ---------------------------------------------------------------- what is stored

  /** The length of the overdue prefix. */
  lemma DropOverdueFrom(list: seq<Raw>, cutoff: Option<int>) returns (k: nat)
    ensures k <= |list| && list[k..] == if cutoff.Some? then DropOverdue(list, cutoff.value) else list
    ensures k > 0 ==> cutoff.Some?
    ensures forall i | 0 <= i < k :: cutoff.Some? && Overdue(list[i], cutoff.value)
    ensures k < |list| && cutoff.Some? ==> !Overdue(list[k], cutoff.value)
  {
    k := 0;
    if cutoff.Some? {
      k := DropOverdueIsSuffix(list, cutoff.value);
    }
  }

  /** This stored text is overdue, and so is all before it. */
  predicate OverdueUpTo(list: seq<Raw>, i: nat, cutoff: Option<int>)
    requires i < |list|
  {
    cutoff.Some? && forall j | 0 <= j <= i :: Overdue(list[j], cutoff.value)
  }

  /**
   * An append stores the new entry under the next number, behind all others. From the front it drops the overdue, up to
   * the first that is not, and whatever has `max` newer ones behind it; nothing else.
   */
  lemma AppendKeeps(st: Stored, max: nat, tenant: string, stamp: Option<int>, text: string, cutoff: Option<int>)
    returns (k: nat)
    ensures var e := Entry(|st.history| + 1, tenant, stamp, text);
            var pushed := st.list + [Log(e)];
            var next := AppendStep(st, max, tenant, stamp, text, cutoff);
            && next.history == st.history + [e]
            && k <= |pushed| && next.list == pushed[k..] && |next.list| <= max
            && (forall i | 0 <= i < k :: OverdueUpTo(pushed, i, cutoff) || |pushed| - i > max)
            && (cutoff.Some? && 0 < |next.list| < max ==> !Overdue(next.list[0], cutoff.value))
  {
    var e := Entry(|st.history| + 1, tenant, stamp, text);
    var pushed := st.list + [Log(e)];
    var d := DropOverdueFrom(pushed, cutoff);
    var kept := pushed[d..];
    if |kept| <= max {
      k := d;
    } else {
      k := |pushed| - max;
      assert kept[|kept| - max..] == pushed[k..];
    }
  }

  /** An entry stamped at the cutoff or later is not overdue, one stamped before it or without a stamp is. */
  lemma CutoffIsKept(e: Entry, cutoff: int)
    ensures Overdue(Log(e), cutoff) <==> !(e.stamp.Some? && e.stamp.value >= cutoff)
    ensures Overdue(Junk, cutoff)
  {
  }

  /** Every stored text is an entry. */
  predicate Clean(st: Stored) {
    forall i | 0 <= i < |st.list| :: st.list[i].Log?
  }

  lemma {:induction false} NumbersSpread(list: seq<Raw>, i: nat, j: nat)
    requires Increasing(list) && i <= j < |list| && forall k | 0 <= k < |list| :: list[k].Log?
    ensures list[j].entry.number >= list[i].entry.number + (j - i)
    decreases j
  {
    if i < j {
      NumbersSpread(list, i, j - 1);
    }
  }

  /** With less than `max` entries after it, an entry that is not overdue survives an append, and so does a new one. */
  lemma AppendSurvives(st: Stored, max: nat, tenant: string, stamp: Option<int>, text: string, cutoff: Option<int>,
                       e: Entry)
    requires Well(st) && Clean(st)
    requires Log(e) in st.list || e == Entry(|st.history| + 1, tenant, stamp, text)
    requires cutoff.Some? ==> !Overdue(Log(e), cutoff.value)
    requires |st.history| + 1 - e.number < max
    ensures Log(e) in AppendStep(st, max, tenant, stamp, text, cutoff).list
  {
    var added := Entry(|st.history| + 1, tenant, stamp, text);
    var pushed := st.list + [Log(added)];
    var k := AppendKeeps(st, max, tenant, stamp, text, cutoff);
    PushedWell(st, tenant, stamp, text);
    var i := |st.list|;
    if e != added {
      i :| 0 <= i < |st.list| && st.list[i] == Log(e);
    }
    StaysBehind(pushed, k, i, e, max, cutoff);
  }

  lemma NotOverdueUpTo(list: seq<Raw>, i: nat, cutoff: Option<int>)
    requires i < |list| && (cutoff.Some? ==> !Overdue(list[i], cutoff.value))
    ensures !OverdueUpTo(list, i, cutoff)
  {
  }

  lemma StaysBehind(pushed: seq<Raw>, k: nat, i: nat, e: Entry, max: nat, cutoff: Option<int>)
    requires i < |pushed| && k <= |pushed| && pushed[i] == Log(e) && Increasing(pushed)
    requires forall j | 0 <= j < |pushed| :: pushed[j].Log?
    requires forall j | 0 <= j < k :: OverdueUpTo(pushed, j, cutoff) || |pushed| - j > max
    requires cutoff.Some? ==> !Overdue(Log(e), cutoff.value)
    requires pushed[|pushed| - 1].entry.number - e.number < max
    ensures Log(e) in pushed[k..]
  {
    NumbersSpread(pushed, i, |pushed| - 1);
    NotOverdueUpTo(pushed, i, cutoff);
    assert |pushed| - i <= max;
    if i >= k {
      assert pushed[k..][i - k] == Log(e);
    }
  }

  lemma AppendClean(st: Stored, max: nat, tenant: string, stamp: Option<int>, text: string, cutoff: Option<int>)
    requires Clean(st)
    ensures Clean(AppendStep(st, max, tenant, stamp, text, cutoff))
  {
    var k := AppendKeeps(st, max, tenant, stamp, text, cutoff);
  }

  lemma EventClean(st: Stored, max: nat, e: ListEvent)
    requires Well(st) && Clean(st)
    ensures Clean(AfterEvent(st, max, e))
  {
    match e
    case Appended(tenant, stamp, text, cutoff) => AppendClean(st, max, tenant, stamp, text, cutoff);
    case Cleared(tenant) =>
      ClearElements(st.list, tenant);
      forall i | 0 <= i < |WithoutTenant(st.list, tenant)| ensures WithoutTenant(st.list, tenant)[i].Log? {
        assert WithoutTenant(st.list, tenant)[i] in st.list;
      }
    case Polled =>
  }

  /** The event neither clears the entry's tenant nor finds the entry overdue. */
  predicate Spares(e: ListEvent, entry: Entry) {
    match e
    case Appended(_, _, _, cutoff) => cutoff.Some? ==> !Overdue(Log(entry), cutoff.value)
    case Cleared(tenant) => entry.tenant != tenant
    case Polled => true
  }

  /** What the appends of a run write, numbered on from n. */
  function Written(n: nat, events: seq<ListEvent>): seq<Entry>
    decreases |events|
  {
    if events == [] then []
    else match events[0]
      case Appended(tenant, stamp, text, _) => [Entry(n + 1, tenant, stamp, text)] + Written(n + 1, events[1..])
      case _ => Written(n, events[1..])
  }

  lemma {:induction false} HistoryIsWritten(st: Stored, max: nat, events: seq<ListEvent>)
    ensures AfterEvents(st, max, events).history == st.history + Written(|st.history|, events)
    decreases |events|
  {
    if events != [] {
      HistoryIsWritten(AfterEvent(st, max, events[0]), max, events[1..]);
    }
  }

  /** A stored entry that every event spares is stored as long as less than `max` newer ones were appended. */
  lemma {:induction false} EntrySurvives(st: Stored, max: nat, events: seq<ListEvent>, entry: Entry)
    requires Well(st) && Clean(st) && Log(entry) in st.list
    requires forall i | 0 <= i < |events| :: Spares(events[i], entry)
    requires |st.history| + |Written(|st.history|, events)| - entry.number < max
    ensures Log(entry) in AfterEvents(st, max, events).list
    decreases |events|
  {
    if events != [] {
      var e, next := events[0], AfterEvent(st, max, events[0]);
      assert Spares(events[0], entry);
      EventWell(st, max, e);
      EventClean(st, max, e);
      match e {
        case Appended(tenant, stamp, text, cutoff) => AppendSurvives(st, max, tenant, stamp, text, cutoff, entry);
        case Cleared(tenant) => ClearElements(st.list, tenant);
        case Polled =>
      }
      EntrySurvives(next, max, events[1..], entry);
    }
  }

  /** No event of the run drops any entry that the run itself appends. */
  predicate SparesOwn(n: nat, events: seq<ListEvent>)
    decreases |events|
  {
    events == [] ||
    match events[0]
    case Appended(tenant, stamp, text, _) =>
      && (forall i | 0 <= i < |events| :: Spares(events[i], Entry(n + 1, tenant, stamp, text)))
      && SparesOwn(n + 1, events[1..])
    case _ => SparesOwn(n, events[1..])
  }

  /** Of at most `max` appends that no clear and no cutoff of the run touches, all entries are stored at its end. */
  lemma {:induction false} ArrivalsStored(st: Stored, max: nat, events: seq<ListEvent>)
    requires Well(st) && Clean(st) && SparesOwn(|st.history|, events)
    requires |Written(|st.history|, events)| <= max
    ensures forall e | e in Written(|st.history|, events) :: Log(e) in AfterEvents(st, max, events).list
    decreases |events|
  {
    if events != [] {
      var next := AfterEvent(st, max, events[0]);
      EventWell(st, max, events[0]);
      EventClean(st, max, events[0]);
      ArrivalsStored(next, max, events[1..]);
      if events[0].Appended? {
        var a := events[0];
        var e := Entry(|st.history| + 1, a.tenant, a.stamp, a.text);
        assert Spares(events[0], e);
        AppendSurvives(st, max, a.tenant, a.stamp, a.text, a.cutoff, e);
        EntrySurvives(next, max, events[1..], e);
      }
    }
  }

  predicate PlainAppends(events: seq<ListEvent>) {
    forall i | 0 <= i < |events| :: events[i].Polled? || (events[i].Appended? && events[i].cutoff.None?)
  }

  function Newest(entries: seq<Entry>, max: nat): seq<Entry> {
    if |entries| <= max then entries else entries[|entries| - max..]
  }

  /** Without clears and cutoffs, a list that starts as the last `max` entries of its history always is. */
  lemma {:induction false} ListIsNewest(st: Stored, max: nat, events: seq<ListEvent>)
    requires PlainAppends(events) && st.list == RawOf(Newest(st.history, max))
    ensures var now := AfterEvents(st, max, events); now.list == RawOf(Newest(now.history, max))
    decreases |events|
  {
    if events != [] {
      var next := AfterEvent(st, max, events[0]);
      assert events[0].Polled? || (events[0].Appended? && events[0].cutoff.None?);
      if events[0].Appended? {
        assert next.list == RawOf(Newest(next.history, max));
      }
      ListIsNewest(next, max, events[1..]);
    }
  }

  /** From an empty list on: the stored entries are the last `max` appended, with their tenants, stamps and texts. */
  lemma ListIsLastWritten(max: nat, events: seq<ListEvent>)
    requires PlainAppends(events)
    ensures AfterEvents(Stored([], []), max, events).list == RawOf(Newest(Written(0, events), max))
  {
    var st := Stored([], []);
    assert st.list == RawOf(Newest(st.history, max));
    ListIsNewest(st, max, events);
    HistoryIsWritten(st, max, events);
    assert st.history + Written(0, events) == Written(0, events);
  }

  function OfTenant(entries: seq<Entry>, tenant: string): seq<Entry> {
    if entries == [] then []
    else (if tenant == "" || entries[0].tenant == tenant then [entries[0]] else []) + OfTenant(entries[1..], tenant)
  }

  lemma {:induction false} MatchingOfHistory(history: seq<Entry>, p: nat, n: nat, tenant: string)
    requires n <= p <= |history| && forall i | 0 <= i < |history| :: history[i].number == i + 1
    ensures Matching(RawOf(history), p, n, tenant) == OfTenant(history[p..], tenant)
    decreases |history| - p
  {
    if p < |history| {
      MatchingOfHistory(history, p + 1, n, tenant);
      assert history[p..][1..] == history[p + 1..];
    }
  }

  lemma {:induction false} MatchingSkips(history: seq<Entry>, p: nat, n: nat, tenant: string)
    requires p <= n <= |history| && forall i | 0 <= i < |history| :: history[i].number == i + 1
    ensures Matching(RawOf(history), p, n, tenant) == Matching(RawOf(history), n, n, tenant)
    decreases n - p
  {
    if p < n {
      MatchingSkips(history, p + 1, n, tenant);
    }
  }

  /**
   * What a run appends reaches the reader: after a poll of the list, and at most `max` appends none of which the run's
   * own clears and cutoffs touch, the next poll returns exactly the wanted ones among them, if they fit its limit.
   */
  lemma RunReachesReader(st: Stored, max: nat, events: seq<ListEvent>, after: nat, limit: int, limit2: int,
                         tenant: string)
    requires Well(st) && Clean(st) && after <= |st.history| && limit >= 1
    requires SparesOwn(|st.history|, events) && |Written(|st.history|, events)| <= max
    requires |OfTenant(Written(|st.history|, events), tenant)| <= limit2
    ensures Ask(AfterEvents(st, max, events), Ask(st, after, limit, tenant).lastSeq, limit2, tenant).entries
         == OfTenant(Written(|st.history|, events), tenant)
  {
    var now, n := AfterEvents(st, max, events), |st.history|;
    EventsWell(st, max, events);
    HistoryIsWritten(st, max, events);
    ArrivalsStored(st, max, events);
    MatchingSkips(now.history, 0, n, tenant);
    MatchingOfHistory(now.history, n, n, tenant);
    assert now.history[n..] == Written(n, events);
    ArrivedElements(st, now, tenant);
    forall e | e in Arrived(st, now, tenant) ensures Log(e) in now.list {
      assert now.history[e.number - 1] == now.history[n..][e.number - 1 - n];
    }
    RunMissesNothing(st, max, events, after, limit, limit2, tenant);
  }

  // ---------------------------------------------------------------- which entries an answer holds

  /** An answer is cut off only by its limit, and then holds the newest. */
  lemma AnswerIsNewest(st: Stored, after: nat, limit: nat, tenant: string, e: Entry)
    requires Well(st) && after < |st.history| && Log(e) in st.list && Wanted(Log(e), after, tenant)
    ensures var page := Ask(st, after, limit, tenant);
            e in page.entries || (|page.entries| == limit && forall x | x in page.entries :: e.number < x.number)
  {
    var m := Matching(st.list, 0, after, tenant);
    MatchingElements(st.list, 0, after, tenant);
    MatchingRises(st.list, 0, after, tenant);
    assert st.list[0..] == st.list;
    var i :| 0 <= i < |m| && m[i] == e;
    TakeLastNewest(m, limit, i);
  }

  lemma TakeLastNewest(m: seq<Entry>, limit: nat, i: nat)
    requires Rising(m) && i < |m|
    ensures var t := TakeLast(m, limit);
            m[i] in t || (|t| == limit && forall x | x in t :: m[i].number < x.number)
  {
    var t := TakeLast(m, limit);
    var k := |m| - |t|;
    if i >= k {
      assert t[i - k] == m[i];
    } else {
      forall x | x in t ensures m[i].number < x.number {
        var j :| 0 <= j < |t| && t[j] == x;
        assert m[k + j] == x;
      }
    }
  }

  /** A cursor that is not behind the counter, as after the counter began anew, is answered with the counter. */
  lemma CursorAhead(st: Stored, after: nat, limit: int, tenant: string)
    requires st.history != [] && after >= |st.history|
    ensures Ask(st, after, limit, tenant) == Page([], |st.history|)
  {
  }

  /** An answer with entries moves the cursor to the last of them; one without leaves it. */
  lemma CursorMoves(st: Stored, after: nat, limit: int, tenant: string)
    requires after < |st.history|
    ensures var page := Ask(st, after, limit, tenant);
            page.lastSeq == if page.entries == [] then after else page.entries[|page.entries| - 1].number
  {
  }
}
