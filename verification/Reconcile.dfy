/** Greedy asset/device matching of scripts/maintenance/validate_group_comparison_readonly.py. */
module Reconcile {
  import opened Wrappers

  datatype Level = Strong | Likely | Weak | NoMatch

  /** One scored pair, by the positions of the asset and of the device in their lists. */
  datatype Candidate = Candidate(score: nat, asset: nat, device: nat, level: Level)

  /** An output row; a side without counterpart is None. */
  datatype ResultRow = ResultRow(asset: Option<nat>, device: Option<nat>, score: nat, level: Level)

  // ---------------------------------------------------------------- candidates and their order

  predicate InRange(c: Candidate, assets: nat, devices: nat) {
    c.asset < assets && c.device < devices
  }

  /** The order in which the nested loops build the candidates. */
  predicate BuiltBefore(a: Candidate, b: Candidate) {
    a.asset < b.asset || (a.asset == b.asset && a.device < b.device)
  }

  /** The order after the stable descending sort: higher score first, ties in building order. */
  predicate Before(a: Candidate, b: Candidate) {
    a.score > b.score || (a.score == b.score && BuiltBefore(a, b))
  }

  ghost predicate Built(cands: seq<Candidate>) {
    forall i, j | 0 <= i < j < |cands| :: BuiltBefore(cands[i], cands[j])
  }

  ghost predicate Ordered(cands: seq<Candidate>) {
    forall i, j | 0 <= i < j < |cands| :: Before(cands[i], cands[j])
  }

  /** list.sort(key=score, reverse=True): c goes behind every candidate of at least its score. */
  function Insert(c: Candidate, sorted: seq<Candidate>): (r: seq<Candidate>)
    ensures multiset(r) == multiset(sorted) + multiset{c}
  {
    if sorted != [] && sorted[0].score >= c.score then
      assert sorted == [sorted[0]] + sorted[1..];
      [sorted[0]] + Insert(c, sorted[1..])
    else [c] + sorted
  }

  function SortByScore(cands: seq<Candidate>): (r: seq<Candidate>)
    ensures multiset(r) == multiset(cands)
  {
    if cands == [] then []
    else
      var last := |cands| - 1;
      assert cands == cands[..last] + [cands[last]];
      Insert(cands[last], SortByScore(cands[..last]))
  }

  lemma {:induction false} InsertOrdered(c: Candidate, sorted: seq<Candidate>)
    requires Ordered(sorted) && forall x | x in sorted :: BuiltBefore(x, c)
    ensures Ordered(Insert(c, sorted))
    decreases |sorted|
  {
    var r := Insert(c, sorted);
    if sorted != [] && sorted[0].score >= c.score {
      var tail := Insert(c, sorted[1..]);
      InsertOrdered(c, sorted[1..]);
      forall x | x in tail ensures Before(sorted[0], x) {
        assert x in multiset(tail);
        if x != c {
          assert x in sorted[1..];
        }
      }
      forall i, j | 0 <= i < j < |r| ensures Before(r[i], r[j]) {
        if i == 0 {
          assert r[j] in tail;
        }
      }
    } else if sorted != [] {
      forall x | x in sorted ensures Before(c, x) {
        assert x == sorted[0] || Before(sorted[0], x);
      }
      forall i, j | 0 <= i < j < |r| ensures Before(r[i], r[j]) {
        if i == 0 {
          assert r[j] in sorted;
        }
      }
    }
  }

  /** Sorting keeps the candidates and puts them in the one order that score and building order determine. */
  lemma {:induction false} SortOrdered(cands: seq<Candidate>)
    requires Built(cands)
    ensures Ordered(SortByScore(cands)) && multiset(SortByScore(cands)) == multiset(cands)
    decreases |cands|
  {
    if cands != [] {
      var last := |cands| - 1;
      var front := cands[..last];
      SortOrdered(front);
      forall x | x in SortByScore(front) ensures BuiltBefore(x, cands[last]) {
        assert x in multiset(front);
      }
      InsertOrdered(cands[last], SortByScore(front));
    }
  }

  // ---------------------------------------------------------------- the greedy choice

  predicate Acceptable(c: Candidate) {
    c.level != NoMatch
  }

  predicate Free(c: Candidate, usedA: set<nat>, usedD: set<nat>) {
    c.asset !in usedA && c.device !in usedD
  }

  /** The pairs the loop still chooses from cands when the given assets and devices are taken. */
  function Pick(cands: seq<Candidate>, usedA: set<nat>, usedD: set<nat>): seq<Candidate>
    decreases |cands|
  {
    if cands == [] then []
    else if Acceptable(cands[0]) && Free(cands[0], usedA, usedD) then
      [cands[0]] + Pick(cands[1..], usedA + {cands[0].asset}, usedD + {cands[0].device})
    else Pick(cands[1..], usedA, usedD)
  }

  function Assets(m: seq<Candidate>): set<nat> {
    set c | c in m :: c.asset
  }

  function Devices(m: seq<Candidate>): set<nat> {
    set c | c in m :: c.device
  }

  /** No asset and no device occurs twice. */
  ghost predicate IsMatching(m: seq<Candidate>) {
    forall i, j | 0 <= i < j < |m| :: m[i].asset != m[j].asset && m[i].device != m[j].device
  }

  function Total(m: seq<Candidate>): nat {
    if m == [] then 0 else m[0].score + Total(m[1..])
  }

  lemma {:induction false} PickIsMatching(cands: seq<Candidate>, usedA: set<nat>, usedD: set<nat>)
    ensures var m := Pick(cands, usedA, usedD);
            && IsMatching(m)
            && forall c | c in m :: c in cands && Acceptable(c) && Free(c, usedA, usedD)
    decreases |cands|
  {
    if cands != [] {
      var c := cands[0];
      if Acceptable(c) && Free(c, usedA, usedD) {
        var rest := Pick(cands[1..], usedA + {c.asset}, usedD + {c.device});
        PickIsMatching(cands[1..], usedA + {c.asset}, usedD + {c.device});
        var m := [c] + rest;
        forall i, j | 0 <= i < j < |m| ensures m[i].asset != m[j].asset && m[i].device != m[j].device {
          assert m[j] in rest;
          if i > 0 {
            assert m[i] == rest[i - 1] && m[j] == rest[j - 1];
          }
        }
      } else {
        PickIsMatching(cands[1..], usedA, usedD);
      }
    }
  }

  /** A chosen pair that shares an end with c and comes no later than c. */
  ghost predicate Blocks(p: Candidate, c: Candidate) {
    (p.asset == c.asset || p.device == c.device) && (p == c || Before(p, c))
  }

  lemma {:induction false} PickBlocks(cands: seq<Candidate>, usedA: set<nat>, usedD: set<nat>, c: Candidate)
    requires Ordered(cands) && c in cands && Acceptable(c) && Free(c, usedA, usedD)
    ensures exists p :: p in Pick(cands, usedA, usedD) && Blocks(p, c)
    decreases |cands|
  {
    var h := cands[0];
    var takes := Acceptable(h) && Free(h, usedA, usedD);
    if c == h {
      assert h in Pick(cands, usedA, usedD);
    } else if takes && (h.asset == c.asset || h.device == c.device) {
      assert h in Pick(cands, usedA, usedD);
      var j :| 0 <= j < |cands| && cands[j] == c;
      assert Before(cands[0], cands[j]);
      assert Blocks(h, c);
    } else {
      assert c in cands[1..];
      var usedA' := if takes then usedA + {h.asset} else usedA;
      var usedD' := if takes then usedD + {h.device} else usedD;
      PickBlocks(cands[1..], usedA', usedD', c);
      var p :| p in Pick(cands[1..], usedA', usedD') && Blocks(p, c);
      assert p in Pick(cands, usedA, usedD);
    }
  }

  // ---------------------------------------------------------------- half of the optimum

  function Without(m: seq<Candidate>, c: Candidate): seq<Candidate> {
    if m == [] then []
    else if Hits(m[0], c) > 0 then Without(m[1..], c)
    else [m[0]] + Without(m[1..], c)
  }

  /** How many of its two ends x shares with c. */
  function Hits(x: Candidate, c: Candidate): nat {
    (if x.asset == c.asset then 1 else 0) + (if x.device == c.device then 1 else 0)
  }

  function Touching(m: seq<Candidate>, c: Candidate): nat {
    if m == [] then 0 else Hits(m[0], c) + Touching(m[1..], c)
  }

  lemma {:induction false} WithoutProperties(m: seq<Candidate>, c: Candidate)
    requires IsMatching(m)
    ensures IsMatching(Without(m, c))
    ensures forall x | x in Without(m, c) :: x in m && x.asset != c.asset && x.device != c.device
    decreases |m|
  {
    if m != [] {
      var rest := m[1..];
      forall i, j | 0 <= i < j < |rest| ensures rest[i].asset != rest[j].asset && rest[i].device != rest[j].device {
        assert rest[i] == m[i + 1] && rest[j] == m[j + 1];
      }
      WithoutProperties(rest, c);
      var w := Without(rest, c);
      forall x | x in w ensures x.asset != m[0].asset && x.device != m[0].device {
        var j :| 0 <= j < |rest| && rest[j] == x;
        assert m[j + 1] == x;
      }
    }
  }

  /** In a matching at most one pair shares c's asset and at most one shares c's device. */
  lemma {:induction false} TouchingBound(m: seq<Candidate>, c: Candidate)
    requires IsMatching(m)
    ensures Touching(m, c) <= (if c.asset in Assets(m) then 1 else 0) + (if c.device in Devices(m) then 1 else 0)
    decreases |m|
  {
    if m != [] {
      var rest := m[1..];
      forall i, j | 0 <= i < j < |rest| ensures rest[i].asset != rest[j].asset && rest[i].device != rest[j].device {
        assert rest[i] == m[i + 1] && rest[j] == m[j + 1];
      }
      TouchingBound(rest, c);
      assert m[0] in m;
      assert m[0].asset in Assets(m) && m[0].device in Devices(m);
      forall x | x in rest ensures x.asset in Assets(m) && x.device in Devices(m)
                               && x.asset != m[0].asset && x.device != m[0].device {
        var j :| 0 <= j < |rest| && rest[j] == x;
        assert m[j + 1] == x && x in m;
      }
    }
  }

  lemma Distribute(k: nat, n: nat, s: nat)
    ensures (k + n) * s == k * s + n * s
    ensures k >= 1 ==> k * s >= s
  {
    if k >= 1 {
      assert k * s == (k - 1) * s + s;
    }
  }

  lemma {:induction false} RemovalCost(m: seq<Candidate>, c: Candidate)
    requires forall x | x in m :: x.score <= c.score
    ensures Total(m) <= Total(Without(m, c)) + Touching(m, c) * c.score
    decreases |m|
  {
    if m != [] {
      var rest := m[1..];
      var k := Hits(m[0], c);
      assert m[0] in m && forall x | x in rest :: x in m;
      RemovalCost(rest, c);
      Distribute(k, Touching(rest, c), c.score);
      if k == 0 {
        assert Without(m, c)[1..] == Without(rest, c);
      }
    }
  }

  /** Any matching that still fits beside what is taken is worth at most twice what the loop still collects. */
  lemma {:induction false} HalfOptimal(cands: seq<Candidate>, usedA: set<nat>, usedD: set<nat>, m: seq<Candidate>)
    requires Ordered(cands) && IsMatching(m)
    requires forall x | x in m :: x in cands && Acceptable(x) && Free(x, usedA, usedD)
    ensures Total(m) <= 2 * Total(Pick(cands, usedA, usedD))
    decreases |cands|
  {
    if m != [] {
      assert m[0] in m;
      var h, rest := cands[0], cands[1..];
      assert Ordered(rest);
      if Acceptable(h) && Free(h, usedA, usedD) {
        forall x | x in m ensures x.score <= h.score {
          var j :| 0 <= j < |cands| && cands[j] == x;
          assert j == 0 || Before(cands[0], cands[j]);
        }
        var w := Without(m, h);
        WithoutProperties(m, h);
        TouchingBound(m, h);
        RemovalCost(m, h);
        AtMostTwice(Touching(m, h), h.score);
        forall x | x in w ensures x in rest {
          assert x in m && x != h;
        }
        HalfOptimal(rest, usedA + {h.asset}, usedD + {h.device}, w);
        assert Pick(cands, usedA, usedD)[1..] == Pick(rest, usedA + {h.asset}, usedD + {h.device});
      } else {
        forall x | x in m ensures x in rest {
          assert x != h;
        }
        HalfOptimal(rest, usedA, usedD, m);
      }
    }
  }

  lemma AtMostTwice(k: nat, s: nat)
    requires k <= 2
    ensures k * s <= 2 * s
  {
  }

  // ---------------------------------------------------------------- the whole reconciliation

  type Scorer<!A, !D> = (A, D) -> (nat, Level)

  function Scored<A, D>(assets: seq<A>, devices: seq<D>, score: Scorer<A, D>, i: nat, j: nat): Candidate
    requires i < |assets| && j < |devices|
  {
    var (s, level) := score(assets[i], devices[j]);
    Candidate(s, i, j, level)
  }

  /** The candidates built when asset i has been compared with the first j devices. */
  function BuiltUpTo<A, D>(assets: seq<A>, devices: seq<D>, score: Scorer<A, D>, i: nat, j: nat): seq<Candidate>
    requires i <= |assets| && j <= |devices| && (i == |assets| ==> j == 0)
    decreases i, j
  {
    if j > 0 then BuiltUpTo(assets, devices, score, i, j - 1) + [Scored(assets, devices, score, i, j - 1)]
    else if i > 0 then BuiltUpTo(assets, devices, score, i - 1, |devices|)
    else []
  }

  function Matched<A, D>(assets: seq<A>, devices: seq<D>, score: Scorer<A, D>): seq<Candidate> {
    Pick(SortByScore(BuiltUpTo(assets, devices, score, |assets|, 0)), {}, {})
  }

  function PairRows(m: seq<Candidate>): seq<ResultRow> {
    seq(|m|, k requires 0 <= k < |m| => ResultRow(Some(m[k].asset), Some(m[k].device), m[k].score, m[k].level))
  }

  function LoneAssets(n: nat, used: set<nat>): seq<ResultRow> {
    if n == 0 then []
    else LoneAssets(n - 1, used) + (if n - 1 in used then [] else [ResultRow(Some(n - 1), None, 0, NoMatch)])
  }

  function LoneDevices(n: nat, used: set<nat>): seq<ResultRow> {
    if n == 0 then []
    else LoneDevices(n - 1, used) + (if n - 1 in used then [] else [ResultRow(None, Some(n - 1), 0, NoMatch)])
  }

  function ResultRows<A, D>(assets: seq<A>, devices: seq<D>, score: Scorer<A, D>): seq<ResultRow> {
    var m := Matched(assets, devices, score);
    PairRows(m) + LoneAssets(|assets|, Assets(m)) + LoneDevices(|devices|, Devices(m))
  }

  method BuildCandidates<A, D>(assets: seq<A>, devices: seq<D>, score: Scorer<A, D>)
    returns (candidates: seq<Candidate>)
    ensures candidates == BuiltUpTo(assets, devices, score, |assets|, 0)
  {
    candidates := [];
    for i := 0 to |assets|
      invariant candidates == BuiltUpTo(assets, devices, score, i, 0)
    {
      for j := 0 to |devices|
        invariant candidates == BuiltUpTo(assets, devices, score, i, j)
      {
        candidates := candidates + [Scored(assets, devices, score, i, j)];
      }
    }
  }

  method ChoosePairs(candidates: seq<Candidate>)
    returns (chosen: seq<Candidate>, matchedAssets: set<nat>, matchedDevices: set<nat>)
    ensures chosen == Pick(candidates, {}, {})
    ensures matchedAssets == Assets(chosen) && matchedDevices == Devices(chosen)
  {
    chosen, matchedAssets, matchedDevices := [], {}, {};
    for k := 0 to |candidates|
      invariant chosen + Pick(candidates[k..], matchedAssets, matchedDevices) == Pick(candidates, {}, {})
      invariant matchedAssets == Assets(chosen) && matchedDevices == Devices(chosen)
    {
      var c := candidates[k];
      assert candidates[k..][0] == c && candidates[k..][1..] == candidates[k + 1..];
      if c.level == NoMatch || c.asset in matchedAssets || c.device in matchedDevices {
        continue;
      }
      ChooseOne(chosen, c, Pick(candidates[k + 1..], matchedAssets + {c.asset}, matchedDevices + {c.device}));
      matchedAssets := matchedAssets + {c.asset};
      matchedDevices := matchedDevices + {c.device};
      chosen := chosen + [c];
    }
  }

  method AddUnmatched(pairs: seq<ResultRow>, assets: nat, devices: nat, usedA: set<nat>, usedD: set<nat>)
    returns (matched: seq<ResultRow>)
    ensures matched == pairs + LoneAssets(assets, usedA) + LoneDevices(devices, usedD)
  {
    matched := pairs;
    for i := 0 to assets
      invariant matched == pairs + LoneAssets(i, usedA)
    {
      if i !in usedA {
        matched := matched + [ResultRow(Some(i), None, 0, NoMatch)];
      }
    }
    for j := 0 to devices
      invariant matched == pairs + LoneAssets(assets, usedA) + LoneDevices(j, usedD)
    {
      if j !in usedD {
        matched := matched + [ResultRow(None, Some(j), 0, NoMatch)];
      }
    }
  }

  method Reconcile<A, D>(assets: seq<A>, devices: seq<D>, score: Scorer<A, D>) returns (matched: seq<ResultRow>)
    ensures matched == ResultRows(assets, devices, score)
  {
    var candidates := BuildCandidates(assets, devices, score);
    candidates := SortByScore(candidates);
    var chosen, usedA, usedD := ChoosePairs(candidates);
    matched := AddUnmatched(PairRows(chosen), |assets|, |devices|, usedA, usedD);
  }

  lemma ChooseOne(chosen: seq<Candidate>, c: Candidate, rest: seq<Candidate>)
    ensures chosen + ([c] + rest) == (chosen + [c]) + rest
    ensures Assets(chosen + [c]) == Assets(chosen) + {c.asset}
    ensures Devices(chosen + [c]) == Devices(chosen) + {c.device}
  {
    assert forall x :: x in chosen + [c] <==> x in chosen || x == c;
  }

  // ---------------------------------------------------------------- what the rows promise

  lemma {:induction false} BuiltCandidates<A, D>(assets: seq<A>, devices: seq<D>, score: Scorer<A, D>, i: nat, j: nat)
    requires i <= |assets| && j <= |devices| && (i == |assets| ==> j == 0)
    ensures var cs := BuiltUpTo(assets, devices, score, i, j);
            && Built(cs)
            && (forall c | c in cs :: InRange(c, |assets|, |devices|) && (c.asset < i || (c.asset == i && c.device < j))
                                      && c == Scored(assets, devices, score, c.asset, c.device))
            && (forall a: nat, d: nat | a < |assets| && d < |devices| && (a < i || (a == i && d < j)) ::
                  Scored(assets, devices, score, a, d) in cs)
    decreases i, j
  {
    var cs := BuiltUpTo(assets, devices, score, i, j);
    if j > 0 {
      BuiltCandidates(assets, devices, score, i, j - 1);
      var front := BuiltUpTo(assets, devices, score, i, j - 1);
      var c := Scored(assets, devices, score, i, j - 1);
      forall x, y | 0 <= x < y < |cs| ensures BuiltBefore(cs[x], cs[y]) {
        assert cs[x] in front;
      }
      assert cs[|cs| - 1] == c;
      forall a: nat, d: nat | a < |assets| && d < |devices| && (a < i || (a == i && d < j))
        ensures Scored(assets, devices, score, a, d) in cs
      {
        if a < i || d < j - 1 {
          assert Scored(assets, devices, score, a, d) in front;
        }
      }
    } else if i > 0 {
      BuiltCandidates(assets, devices, score, i - 1, |devices|);
    }
  }

  /** What the loops rely on: the sorted candidates are in order, and they are all the scored pairs. */
  lemma SortedCandidates<A, D>(assets: seq<A>, devices: seq<D>, score: Scorer<A, D>) returns (cs: seq<Candidate>)
    ensures Matched(assets, devices, score) == Pick(cs, {}, {}) && Ordered(cs)
    ensures forall c :: c in cs <==>
              InRange(c, |assets|, |devices|) && c == Scored(assets, devices, score, c.asset, c.device)
  {
    var built := BuiltUpTo(assets, devices, score, |assets|, 0);
    BuiltCandidates(assets, devices, score, |assets|, 0);
    SortOrdered(built);
    cs := SortByScore(built);
    assert forall c :: c in cs <==> c in multiset(cs);
    assert forall c :: c in built <==> c in multiset(built);
  }

  /** The chosen pairs form a matching over acceptable scored pairs. */
  lemma ChosenPairsMatch<A, D>(assets: seq<A>, devices: seq<D>, score: Scorer<A, D>)
    ensures var m := Matched(assets, devices, score);
            && IsMatching(m)
            && forall c | c in m :: Acceptable(c) && InRange(c, |assets|, |devices|)
                                    && c == Scored(assets, devices, score, c.asset, c.device)
  {
    var cs := SortedCandidates(assets, devices, score);
    PickIsMatching(cs, {}, {});
  }

  /** Stability: every acceptable pair shares an end with a chosen pair of at least its score. */
  lemma NoBetterPairLeft<A, D>(assets: seq<A>, devices: seq<D>, score: Scorer<A, D>, a: nat, d: nat)
    requires a < |assets| && d < |devices| && Acceptable(Scored(assets, devices, score, a, d))
    ensures exists p :: p in Matched(assets, devices, score) && Blocks(p, Scored(assets, devices, score, a, d))
    ensures exists p :: p in Matched(assets, devices, score) && (p.asset == a || p.device == d)
                        && p.score >= Scored(assets, devices, score, a, d).score
  {
    var cs := SortedCandidates(assets, devices, score);
    var c := Scored(assets, devices, score, a, d);
    PickBlocks(cs, {}, {}, c);
    var p :| p in Pick(cs, {}, {}) && Blocks(p, c);
    assert p in Matched(assets, devices, score) && p.score >= c.score;
  }

  function RowTotal(rows: seq<ResultRow>): nat {
    if rows == [] then 0 else rows[0].score + RowTotal(rows[1..])
  }

  /** How often an asset, or a device, is reported. */
  function AssetCount(rows: seq<ResultRow>, a: nat): nat {
    if rows == [] then 0 else (if rows[0].asset == Some(a) then 1 else 0) + AssetCount(rows[1..], a)
  }

  function DeviceCount(rows: seq<ResultRow>, d: nat): nat {
    if rows == [] then 0 else (if rows[0].device == Some(d) then 1 else 0) + DeviceCount(rows[1..], d)
  }

  lemma {:induction false} CountsOfConcat(x: seq<ResultRow>, y: seq<ResultRow>, i: nat)
    ensures RowTotal(x + y) == RowTotal(x) + RowTotal(y)
    ensures AssetCount(x + y, i) == AssetCount(x, i) + AssetCount(y, i)
    ensures DeviceCount(x + y, i) == DeviceCount(x, i) + DeviceCount(y, i)
    decreases |x|
  {
    if x == [] {
      assert x + y == y;
    } else {
      assert (x + y)[1..] == x[1..] + y;
      CountsOfConcat(x[1..], y, i);
    }
  }

  lemma {:induction false} CountsOfPairs(m: seq<Candidate>, i: nat)
    requires IsMatching(m)
    ensures RowTotal(PairRows(m)) == Total(m)
    ensures AssetCount(PairRows(m), i) == if i in Assets(m) then 1 else 0
    ensures DeviceCount(PairRows(m), i) == if i in Devices(m) then 1 else 0
    decreases |m|
  {
    if m != [] {
      var rest := m[1..];
      forall x, y | 0 <= x < y < |rest| ensures rest[x].asset != rest[y].asset && rest[x].device != rest[y].device {
        assert rest[x] == m[x + 1] && rest[y] == m[y + 1];
      }
      CountsOfPairs(rest, i);
      assert PairRows(m)[1..] == PairRows(rest);
      forall c | c in rest ensures c.asset != m[0].asset && c.device != m[0].device {
        var j :| 0 <= j < |rest| && rest[j] == c;
        assert m[j + 1] == c;
      }
      assert forall c :: c in m <==> c == m[0] || c in rest;
    }
  }

  lemma {:induction false} CountsOfLoneAssets(n: nat, used: set<nat>, i: nat)
    ensures var rows := LoneAssets(n, used);
            RowTotal(rows) == 0 && DeviceCount(rows, i) == 0
            && AssetCount(rows, i) == if i < n && i !in used then 1 else 0
  {
    if n > 0 {
      CountsOfLoneAssets(n - 1, used, i);
      var last := if n - 1 in used then [] else [ResultRow(Some(n - 1), None, 0, NoMatch)];
      CountsOfConcat(LoneAssets(n - 1, used), last, i);
      assert last != [] ==> last[1..] == [];
    }
  }

  lemma {:induction false} CountsOfLoneDevices(n: nat, used: set<nat>, i: nat)
    ensures var rows := LoneDevices(n, used);
            RowTotal(rows) == 0 && AssetCount(rows, i) == 0
            && DeviceCount(rows, i) == if i < n && i !in used then 1 else 0
  {
    if n > 0 {
      CountsOfLoneDevices(n - 1, used, i);
      var last := if n - 1 in used then [] else [ResultRow(None, Some(n - 1), 0, NoMatch)];
      CountsOfConcat(LoneDevices(n - 1, used), last, i);
      assert last != [] ==> last[1..] == [];
    }
  }

  /** Every asset and every device is reported in exactly one row, and the rows are worth what the pairs are. */
  lemma EachSideReportedOnce<A, D>(assets: seq<A>, devices: seq<D>, score: Scorer<A, D>, i: nat)
    ensures var rows := ResultRows(assets, devices, score);
            && AssetCount(rows, i) == (if i < |assets| then 1 else 0)
            && DeviceCount(rows, i) == (if i < |devices| then 1 else 0)
            && RowTotal(rows) == Total(Matched(assets, devices, score))
  {
    var m := Matched(assets, devices, score);
    ChosenPairsMatch(assets, devices, score);
    CountsOfPairs(m, i);
    CountsOfLoneAssets(|assets|, Assets(m), i);
    CountsOfLoneDevices(|devices|, Devices(m), i);
    var pairs, lone := PairRows(m), LoneAssets(|assets|, Assets(m));
    CountsOfConcat(pairs, lone, i);
    CountsOfConcat(pairs + lone, LoneDevices(|devices|, Devices(m)), i);
  }

  /** The reported total is at least half that of any matching over acceptable pairs. */
  lemma TotalIsHalfOptimal<A, D>(assets: seq<A>, devices: seq<D>, score: Scorer<A, D>, other: seq<Candidate>)
    requires IsMatching(other)
    requires forall c | c in other :: Acceptable(c) && InRange(c, |assets|, |devices|)
                                      && c == Scored(assets, devices, score, c.asset, c.device)
    ensures Total(other) <= 2 * RowTotal(ResultRows(assets, devices, score))
  {
    var cs := SortedCandidates(assets, devices, score);
    HalfOptimal(cs, {}, {}, other);
    EachSideReportedOnce(assets, devices, score, 0);
  }

  // ---------------------------------------------------------------- the rows themselves

  predicate Paired(row: ResultRow) {
    row.asset.Some? && row.device.Some?
  }

  /** A row with both sides reports that very pair's score and level; a row with one side reports no match. */
  predicate RowRight<A, D>(assets: seq<A>, devices: seq<D>, score: Scorer<A, D>, row: ResultRow) {
    && (row.asset.Some? ==> row.asset.value < |assets|)
    && (row.device.Some? ==> row.device.value < |devices|)
    && (row.asset.Some? || row.device.Some?)
    && if Paired(row) then
         (row.score, row.level) == score(assets[row.asset.value], devices[row.device.value]) && row.level != NoMatch
       else row.score == 0 && row.level == NoMatch
  }

  lemma {:induction false} LoneAssetRows(n: nat, used: set<nat>)
    ensures forall r | r in LoneAssets(n, used) ::
              r.asset.Some? && r.asset.value < n && r.device.None? && r.score == 0 && r.level == NoMatch
  {
    if n > 0 {
      LoneAssetRows(n - 1, used);
    }
  }

  lemma {:induction false} LoneDeviceRows(n: nat, used: set<nat>)
    ensures forall r | r in LoneDevices(n, used) ::
              r.device.Some? && r.device.value < n && r.asset.None? && r.score == 0 && r.level == NoMatch
  {
    if n > 0 {
      LoneDeviceRows(n - 1, used);
    }
  }

  /** Every output row tells the truth about its asset and device. */
  lemma RowsAreRight<A, D>(assets: seq<A>, devices: seq<D>, score: Scorer<A, D>)
    ensures forall row | row in ResultRows(assets, devices, score) :: RowRight(assets, devices, score, row)
  {
    var m := Matched(assets, devices, score);
    ChosenPairsMatch(assets, devices, score);
    LoneAssetRows(|assets|, Assets(m));
    LoneDeviceRows(|devices|, Devices(m));
    forall row | row in PairRows(m) ensures RowRight(assets, devices, score, row) {
      var k :| 0 <= k < |m| && PairRows(m)[k] == row;
      assert m[k] in m;
    }
  }

  /** No two rows share an asset or a device. */
  lemma RowsAreMatching<A, D>(assets: seq<A>, devices: seq<D>, score: Scorer<A, D>, i: nat, j: nat)
    requires i < j < |ResultRows(assets, devices, score)|
    ensures var rows := ResultRows(assets, devices, score);
            && (rows[i].asset.Some? ==> rows[i].asset != rows[j].asset)
            && (rows[i].device.Some? ==> rows[i].device != rows[j].device)
  {
    var rows := ResultRows(assets, devices, score);
    if rows[i].asset.Some? && rows[i].asset == rows[j].asset {
      EachSideReportedOnce(assets, devices, score, rows[i].asset.value);
      TwiceCounted(rows, i, j);
    }
    if rows[i].device.Some? && rows[i].device == rows[j].device {
      EachSideReportedOnce(assets, devices, score, rows[i].device.value);
      TwiceCounted(rows, i, j);
    }
  }

  lemma {:induction false} OnceCounted(rows: seq<ResultRow>, j: nat)
    requires j < |rows|
    ensures rows[j].asset.Some? ==> AssetCount(rows, rows[j].asset.value) >= 1
    ensures rows[j].device.Some? ==> DeviceCount(rows, rows[j].device.value) >= 1
    decreases |rows|
  {
    if j > 0 {
      OnceCounted(rows[1..], j - 1);
    }
  }

  lemma {:induction false} TwiceCounted(rows: seq<ResultRow>, i: nat, j: nat)
    requires i < j < |rows|
    ensures rows[i].asset.Some? && rows[i].asset == rows[j].asset ==> AssetCount(rows, rows[i].asset.value) >= 2
    ensures rows[i].device.Some? && rows[i].device == rows[j].device ==>
              DeviceCount(rows, rows[i].device.value) >= 2
    decreases |rows|
  {
    if i == 0 {
      OnceCounted(rows[1..], j - 1);
    } else {
      TwiceCounted(rows[1..], i - 1, j - 1);
    }
  }

  /** Stability over the rows: an acceptable pair meets a reported one that scores more, or as much and comes first. */
  lemma NoBetterRowMissing<A, D>(assets: seq<A>, devices: seq<D>, score: Scorer<A, D>, a: nat, d: nat)
    returns (row: ResultRow)
    requires a < |assets| && d < |devices| && score(assets[a], devices[d]).1 != NoMatch
    ensures row in ResultRows(assets, devices, score) && Paired(row)
    ensures row.asset == Some(a) || row.device == Some(d)
    ensures var s := score(assets[a], devices[d]).0;
            || row.score > s
            || (row.score == s && (row.asset.value < a || (row.asset.value == a && row.device.value <= d)))
  {
    NoBetterPairLeft(assets, devices, score, a, d);
    var m := Matched(assets, devices, score);
    var p :| p in m && Blocks(p, Scored(assets, devices, score, a, d));
    var k :| 0 <= k < |m| && m[k] == p;
    row := PairRows(m)[k];
  }

  /** The pairs come first, by falling score; the assets left alone follow in order, then the devices in theirs. */
  predicate RowBefore(x: ResultRow, y: ResultRow) {
    if Paired(y) then Paired(x) && x.score >= y.score
    else if Paired(x) then true
    else if x.asset.Some? && y.asset.Some? then x.asset.value < y.asset.value
    else if x.device.Some? && y.device.Some? then x.device.value < y.device.value
    else x.asset.Some?
  }

  lemma {:induction false} LoneAssetsRise(n: nat, used: set<nat>, i: nat, j: nat)
    requires i < j < |LoneAssets(n, used)|
    ensures RowBefore(LoneAssets(n, used)[i], LoneAssets(n, used)[j])
  {
    LoneAssetRows(n - 1, used);
    LoneAssetRows(n, used);
    if j < |LoneAssets(n - 1, used)| {
      LoneAssetsRise(n - 1, used, i, j);
    }
    assert LoneAssets(n, used)[i] in LoneAssets(n - 1, used) && LoneAssets(n, used)[j] in LoneAssets(n, used);
  }

  lemma {:induction false} LoneDevicesRise(n: nat, used: set<nat>, i: nat, j: nat)
    requires i < j < |LoneDevices(n, used)|
    ensures RowBefore(LoneDevices(n, used)[i], LoneDevices(n, used)[j])
  {
    LoneDeviceRows(n - 1, used);
    LoneDeviceRows(n, used);
    if j < |LoneDevices(n - 1, used)| {
      LoneDevicesRise(n - 1, used, i, j);
    }
    assert LoneDevices(n, used)[i] in LoneDevices(n - 1, used) && LoneDevices(n, used)[j] in LoneDevices(n, used);
  }

  lemma {:induction false} PickInOrder(cands: seq<Candidate>, usedA: set<nat>, usedD: set<nat>)
    requires Ordered(cands)
    ensures Ordered(Pick(cands, usedA, usedD))
    decreases |cands|
  {
    if cands != [] {
      var h, rest := cands[0], cands[1..];
      assert Ordered(rest);
      if Acceptable(h) && Free(h, usedA, usedD) {
        var picked := Pick(rest, usedA + {h.asset}, usedD + {h.device});
        PickInOrder(rest, usedA + {h.asset}, usedD + {h.device});
        PickIsMatching(rest, usedA + {h.asset}, usedD + {h.device});
        forall x | x in picked ensures Before(h, x) {
          var j :| 0 <= j < |rest| && rest[j] == x;
          assert Before(cands[0], cands[j + 1]);
        }
        var m := [h] + picked;
        forall i, j | 0 <= i < j < |m| ensures Before(m[i], m[j]) {
          assert m[j] in picked;
          if i > 0 {
            assert m[i] == picked[i - 1] && m[j] == picked[j - 1];
          }
        }
      } else {
        PickInOrder(rest, usedA, usedD);
      }
    }
  }

  lemma RowsInOrder<A, D>(assets: seq<A>, devices: seq<D>, score: Scorer<A, D>, i: nat, j: nat)
    requires i < j < |ResultRows(assets, devices, score)|
    ensures RowBefore(ResultRows(assets, devices, score)[i], ResultRows(assets, devices, score)[j])
  {
    var m := Matched(assets, devices, score);
    var cs := SortedCandidates(assets, devices, score);
    PickInOrder(cs, {}, {});
    RowsJoined(m, LoneAssets(|assets|, Assets(m)), LoneDevices(|devices|, Devices(m)), |assets|, Assets(m),
               |devices|, Devices(m), i, j);
  }

  lemma RowsJoined(m: seq<Candidate>, x: seq<ResultRow>, y: seq<ResultRow>, assets: nat, usedA: set<nat>,
                   devices: nat, usedD: set<nat>, i: nat, j: nat)
    requires Ordered(m) && x == LoneAssets(assets, usedA) && y == LoneDevices(devices, usedD)
    requires i < j < |PairRows(m) + x + y|
    ensures RowBefore((PairRows(m) + x + y)[i], (PairRows(m) + x + y)[j])
  {
    LoneAssetRows(assets, usedA);
    LoneDeviceRows(devices, usedD);
    var rows, k, l := PairRows(m) + x + y, |m|, |m| + |x|;
    assert k <= i < l ==> rows[i] in x;
    assert k <= j < l ==> rows[j] in x;
    assert l <= i ==> rows[i] in y;
    assert l <= j ==> rows[j] in y;
    if k <= i && j < l {
      LoneAssetsRise(assets, usedA, i - k, j - k);
    } else if l <= i {
      LoneDevicesRise(devices, usedD, i - l, j - l);
    }
  }
}
