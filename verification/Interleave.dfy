/** _interleave_by_bastion of app/tasks/backups.py: round-robin over the bastions, one countdown per bastion. */
module Interleave {
  /** An item with the seconds it waits before it starts. */
  datatype Entry<T> = Entry(item: T, countdown: int)

  // ---------------------------------------------------------------- what is dealt

  /** The items of one bastion, in input order. */
  function Only<T(!new)>(items: seq<T>, bastionOf: T -> string, key: string): seq<T> {
    if items == [] then []
    else
      var k := |items| - 1;
      Only(items[..k], bastionOf, key) + (if bastionOf(items[k]) == key then [items[k]] else [])
  }

  /** The bastions in the order of their first item. */
  function Bastions<T(!new)>(items: seq<T>, bastionOf: T -> string): seq<string> {
    if items == [] then []
    else
      var k := |items| - 1;
      var before := Bastions(items[..k], bastionOf);
      if bastionOf(items[k]) in before then before else before + [bastionOf(items[k])]
  }

  /** The full bucket of each bastion. */
  function Full<T(!new)>(items: seq<T>, bastionOf: T -> string): string -> seq<T> {
    key => Only(items, bastionOf, key)
  }

  /** The n-th item of a bastion waits n steps. */
  function Pace(step: nat): int -> int {
    (n: int) => n * step
  }

  ghost predicate Covers<T>(keys: seq<string>, buckets: map<string, seq<T>>) {
    forall i | 0 <= i < |keys| :: keys[i] in buckets
  }

  ghost predicate Distinct(keys: seq<string>) {
    keys == [] || (keys[|keys| - 1] !in keys[..|keys| - 1] && Distinct(keys[..|keys| - 1]))
  }

  lemma {:induction false} DistinctAt(keys: seq<string>, i: nat, j: nat)
    requires Distinct(keys) && i < |keys| && j < |keys| && i != j
    ensures keys[i] != keys[j]
    decreases |keys|
  {
    var k := |keys| - 1;
    if i < k && j < k {
      DistinctAt(keys[..k], i, j);
    } else {
      assert keys[if i == k then j else i] in keys[..k];
    }
  }

  lemma {:induction false} BastionsHave<T(!new)>(items: seq<T>, bastionOf: T -> string, item: T)
    requires item in items
    ensures bastionOf(item) in Bastions(items, bastionOf)
    decreases |items|
  {
    var k := |items| - 1;
    if item != items[k] {
      BastionsHave(items[..k], bastionOf, item);
    }
  }

  lemma {:induction false} BastionOfSome<T(!new)>(items: seq<T>, bastionOf: T -> string, key: string)
    returns (item: T)
    requires key in Bastions(items, bastionOf)
    ensures item in items && bastionOf(item) == key
    decreases |items|
  {
    var k := |items| - 1;
    if bastionOf(items[k]) == key {
      item := items[k];
    } else {
      item := BastionOfSome(items[..k], bastionOf, key);
    }
  }

  lemma {:induction false} BastionsDistinct<T(!new)>(items: seq<T>, bastionOf: T -> string)
    ensures Distinct(Bastions(items, bastionOf))
    decreases |items|
  {
    if items != [] {
      var before := Bastions(items[..|items| - 1], bastionOf);
      BastionsDistinct(items[..|items| - 1], bastionOf);
      var one := bastionOf(items[|items| - 1]);
      assert (before + [one])[..|before|] == before;
    }
  }

  function Nth<T(!new)>(own: seq<T>, n: nat, pace: int -> int): seq<Entry<T>> {
    if n < |own| then [Entry(own[n], pace(n))] else []
  }

  /** Round number r: the r-th item of each bastion that has one. */
  function Round<T(!new)>(full: string -> seq<T>, keys: seq<string>, r: nat, pace: int -> int): seq<Entry<T>>
  {
    if keys == [] then []
    else
      var k := |keys| - 1;
      Round(full, keys[..k], r, pace) + Nth(full(keys[k]), r, pace)
  }

  function Concat<T(!new)>(roundOf: int -> seq<Entry<T>>, n: nat): seq<Entry<T>> {
    if n == 0 then [] else Concat(roundOf, n - 1) + roundOf(n - 1)
  }

  function RoundOf<T(!new)>(full: string -> seq<T>, keys: seq<string>, pace: int -> int): int -> seq<Entry<T>> {
    (r: int) => if r < 0 then [] else Round(full, keys, r, pace)
  }

  function Rounds<T(!new)>(full: string -> seq<T>, keys: seq<string>, n: nat, pace: int -> int): seq<Entry<T>> {
    Concat(RoundOf(full, keys, pace), n)
  }

  /** The whole dealing: rounds 0, 1, ... until every bastion is exhausted. */
  function Deal<T(!new)>(items: seq<T>, bastionOf: T -> string, pace: int -> int): seq<Entry<T>> {
    Rounds(Full(items, bastionOf), Bastions(items, bastionOf), |items|, pace)
  }

  lemma {:induction false} OnlyShape<T(!new)>(items: seq<T>, bastionOf: T -> string, key: string)
    ensures |Only(items, bastionOf, key)| <= |items|
    ensures forall item | item in Only(items, bastionOf, key) :: bastionOf(item) == key && item in items
    decreases |items|
  {
    if items != [] {
      OnlyShape(items[..|items| - 1], bastionOf, key);
    }
  }

  lemma {:induction false} OnlyHas<T(!new)>(items: seq<T>, bastionOf: T -> string, item: T)
    requires item in items
    ensures item in Only(items, bastionOf, bastionOf(item))
    decreases |items|
  {
    var k := |items| - 1;
    if item != items[k] {
      OnlyHas(items[..k], bastionOf, item);
    }
  }

  lemma {:induction false} OnlyConcat<T(!new)>(a: seq<T>, b: seq<T>, bastionOf: T -> string, key: string)
    ensures Only(a + b, bastionOf, key) == Only(a, bastionOf, key) + Only(b, bastionOf, key)
    decreases |b|
  {
    if b == [] {
      assert a + b == a;
    } else {
      assert (a + b)[..|a + b| - 1] == a + b[..|b| - 1];
      OnlyConcat(a, b[..|b| - 1], bastionOf, key);
    }
  }

  // ---------------------------------------------------------------- the code

  lemma BastionsNext<T(!new)>(items: seq<T>, bastionOf: T -> string, i: nat, key: string)
    requires i < |items|
    ensures var before, one := Bastions(items[..i], bastionOf), bastionOf(items[i]);
            Bastions(items[..i + 1], bastionOf) == if one in before then before else before + [one]
    ensures Only(items[..i + 1], bastionOf, key)
         == Only(items[..i], bastionOf, key) + (if bastionOf(items[i]) == key then [items[i]] else [])
  {
    assert items[..i + 1][..i] == items[..i];
  }

  /** buckets.setdefault(key, []).append(item), with the keys in insertion order. */
  method FillBuckets<T(!new)>(items: seq<T>, bastionOf: T -> string)
    returns (keys: seq<string>, buckets: map<string, seq<T>>)
    ensures keys == Bastions(items, bastionOf)
    ensures forall key :: key in keys <==> key in buckets
    ensures forall key | key in keys :: buckets[key] == Only(items, bastionOf, key)
  {
    keys, buckets := [], map[];
    for i := 0 to |items|
      invariant keys == Bastions(items[..i], bastionOf)
      invariant forall key :: key in keys <==> key in buckets
      invariant forall key | key in keys :: buckets[key] == Only(items[..i], bastionOf, key)
    {
      var key := bastionOf(items[i]);
      forall other: string {
        BastionsNext(items, bastionOf, i, other);
      }
      if key !in buckets {
        NoneYet(items[..i], bastionOf, key);
        keys, buckets := keys + [key], buckets[key := []];
      }
      buckets := buckets[key := buckets[key] + [items[i]]];
    }
    assert items[..|items|] == items;
  }

  lemma {:induction false} NoneYet<T(!new)>(items: seq<T>, bastionOf: T -> string, key: string)
    requires key !in Bastions(items, bastionOf)
    ensures Only(items, bastionOf, key) == []
    decreases |items|
  {
    if items != [] {
      NoneYet(items[..|items| - 1], bastionOf, key);
    }
  }

  /** The number of items still in the buckets. */
  function Remaining<T(!new)>(keys: seq<string>, buckets: map<string, seq<T>>): nat
    requires Covers(keys, buckets)
  {
    if keys == [] then 0
    else
      var k := |keys| - 1;
      Remaining(keys[..k], buckets) + |buckets[keys[k]]|
  }

  /** A bastion whose full list is `full` was dealt n times. */
  ghost predicate DealtTimes<T(!new)>(full: seq<T>, n: nat, left: seq<T>, count: nat) {
    if n <= |full| then left == full[n..] && count == n else left == [] && count == |full|
  }

  function CountOf(counters: map<string, nat>, key: string): nat {
    if key in counters then counters[key] else 0
  }

  /** Between two bastions of round r: those before position j were dealt r + 1 times, the others r times. */
  ghost predicate Halfway<T(!new)>(full: string -> seq<T>, keys: seq<string>, j: nat, r: nat,
                                   buckets: map<string, seq<T>>, counters: map<string, nat>)
    requires Covers(keys, buckets)
  {
    forall i | 0 <= i < |keys| ::
      DealtTimes(full(keys[i]), if i < j then r + 1 else r, buckets[keys[i]], CountOf(counters, keys[i]))
  }

  lemma {:induction false} LessLeft<T(!new)>(keys: seq<string>, buckets: map<string, seq<T>>, j: nat, rest: seq<T>)
    requires j < |keys| && Distinct(keys) && Covers(keys, buckets)
    ensures Remaining(keys, buckets[keys[j] := rest]) == Remaining(keys, buckets) - |buckets[keys[j]]| + |rest|
    decreases |keys|
  {
    var k := |keys| - 1;
    if j < k {
      DistinctAt(keys, j, k);
      LessLeft(keys[..k], buckets, j, rest);
    } else {
      SameLeft(keys[..k], buckets, keys[k], rest);
    }
  }

  lemma {:induction false} SameLeft<T(!new)>(keys: seq<string>, buckets: map<string, seq<T>>, other: string,
                                             rest: seq<T>)
    requires other !in keys && Covers(keys, buckets)
    ensures Remaining(keys, buckets[other := rest]) == Remaining(keys, buckets)
    decreases |keys|
  {
    if keys != [] {
      SameLeft(keys[..|keys| - 1], buckets, other, rest);
    }
  }

  lemma {:induction false} NoneLeft<T(!new)>(keys: seq<string>, buckets: map<string, seq<T>>)
    requires Covers(keys, buckets)
    ensures Remaining(keys, buckets) == 0 <==> forall i | 0 <= i < |keys| :: buckets[keys[i]] == []
    decreases |keys|
  {
    if keys != [] {
      NoneLeft(keys[..|keys| - 1], buckets);
    }
  }

  lemma RoundNext<T(!new)>(full: string -> seq<T>, keys: seq<string>, j: nat, r: nat, step: nat)
    requires j < |keys|
    ensures Round(full, keys[..j + 1], r, Pace(step)) == Round(full, keys[..j], r, Pace(step))
              + (if r < |full(keys[j])| then [Entry(full(keys[j])[r], r * step)] else [])
  {
    assert keys[..j + 1][..j] == keys[..j];
  }

  lemma HalfwayNext<T(!new)>(full: string -> seq<T>, keys: seq<string>, j: nat, r: nat,
                             buckets: map<string, seq<T>>, counters: map<string, nat>)
    requires j < |keys| && Distinct(keys) && Covers(keys, buckets)
    requires Halfway(full, keys, j, r, buckets, counters)
    ensures var key, bucket := keys[j], buckets[keys[j]];
            (bucket == [] ==> |full(key)| <= r && Halfway(full, keys, j + 1, r, buckets, counters))
            && (bucket != [] ==>
                  && r < |full(key)| && bucket[0] == full(key)[r] && CountOf(counters, key) == r
                  && Covers(keys, buckets[key := bucket[1..]])
                  && Halfway(full, keys, j + 1, r, buckets[key := bucket[1..]], counters[key := r + 1]))
  {
    var key := keys[j];
    assert DealtTimes(full(key), r, buckets[key], CountOf(counters, key));
    forall i | 0 <= i < |keys| && i != j ensures keys[i] != key {
      DistinctAt(keys, i, j);
    }
  }

  lemma HalfwayEnd<T(!new)>(full: string -> seq<T>, keys: seq<string>, r: nat,
                            buckets: map<string, seq<T>>, counters: map<string, nat>)
    requires Covers(keys, buckets)
    ensures Halfway(full, keys, |keys|, r, buckets, counters) ==> Halfway(full, keys, 0, r + 1, buckets, counters)
    ensures Halfway(full, keys, 0, r, buckets, counters) && Remaining(keys, buckets) == 0
        ==> forall i | 0 <= i < |keys| :: |full(keys[i])| <= r
  {
    NoneLeft(keys, buckets);
    if Halfway(full, keys, 0, r, buckets, counters) {
      forall i | 0 <= i < |keys| ensures buckets[keys[i]] == [] ==> |full(keys[i])| <= r {
        assert DealtTimes(full(keys[i]), r, buckets[keys[i]], CountOf(counters, keys[i]));
      }
    }
  }

  /** Round r after the first j bastions: what was dealt so far and what that left of the `left0` items there were. */
  ghost predicate Dealing<T(!new)>(full: string -> seq<T>, keys: seq<string>, j: nat, r: nat, step: nat,
                                   buckets: map<string, seq<T>>, counters: map<string, nat>, dealt: seq<Entry<T>>,
                                   left0: nat)
    requires j <= |keys|
  {
    && Covers(keys, buckets)
    && Halfway(full, keys, j, r, buckets, counters)
    && dealt == Round(full, keys[..j], r, Pace(step))
    && Remaining(keys, buckets) + |dealt| == left0
    && (dealt == [] ==> forall i | 0 <= i < j :: buckets[keys[i]] == [])
  }

  lemma DealingNext<T(!new)>(full: string -> seq<T>, keys: seq<string>, j: nat, r: nat, step: nat,
                             buckets: map<string, seq<T>>, counters: map<string, nat>, dealt: seq<Entry<T>>, left0: nat)
    requires j < |keys| && Distinct(keys) && Dealing(full, keys, j, r, step, buckets, counters, dealt, left0)
    ensures var key, bucket := keys[j], buckets[keys[j]];
            && (bucket == [] ==> Dealing(full, keys, j + 1, r, step, buckets, counters, dealt, left0))
            && (bucket != [] ==>
                  Dealing(full, keys, j + 1, r, step, buckets[key := bucket[1..]],
                          counters[key := CountOf(counters, key) + 1],
                          dealt + [Entry(bucket[0], CountOf(counters, key) * step)], left0))
  {
    RoundNext(full, keys, j, r, step);
    HalfwayNext(full, keys, j, r, buckets, counters);
    var bucket := buckets[keys[j]];
    if bucket != [] {
      LessLeft(keys, buckets, j, bucket[1..]);
    }
  }

  /** One pass over the buckets. */
  method DealRound<T(!new)>(keys: seq<string>, step: nat, ghost full: string -> seq<T>, ghost r: nat,
                            buckets0: map<string, seq<T>>, counters0: map<string, nat>)
    returns (buckets: map<string, seq<T>>, counters: map<string, nat>, dealt: seq<Entry<T>>)
    requires Distinct(keys) && Covers(keys, buckets0)
    requires Halfway(full, keys, 0, r, buckets0, counters0)
    ensures Covers(keys, buckets) && Halfway(full, keys, 0, r + 1, buckets, counters)
    ensures dealt == Round(full, keys, r, Pace(step))
    ensures Remaining(keys, buckets) + |dealt| == Remaining(keys, buckets0)
    ensures dealt == [] ==> Remaining(keys, buckets0) == 0
  {
    buckets, counters, dealt := buckets0, counters0, [];
    ghost var left0 := Remaining(keys, buckets0);
    for j := 0 to |keys|
      invariant Dealing(full, keys, j, r, step, buckets, counters, dealt, left0)
    {
      DealingNext(full, keys, j, r, step, buckets, counters, dealt, left0);
      var key := keys[j];
      var bucket := buckets[key];
      if bucket == [] {
        continue;
      }
      buckets := buckets[key := bucket[1..]];
      var n := CountOf(counters, key);
      counters := counters[key := n + 1];
      dealt := dealt + [Entry(bucket[0], n * step)];
    }
    assert keys[..|keys|] == keys;
    NoneLeft(keys, buckets);
    HalfwayEnd(full, keys, r, buckets, counters);
  }

  lemma {:induction false} EmptyRounds<T(!new)>(full: string -> seq<T>, keys: seq<string>, r: nat, pace: int -> int)
    requires forall i | 0 <= i < |keys| :: |full(keys[i])| <= r
    ensures Round(full, keys, r, pace) == []
    decreases |keys|
  {
    if keys != [] {
      EmptyRounds(full, keys[..|keys| - 1], r, pace);
    }
  }

  lemma {:induction false} ConcatSettles<T(!new)>(roundOf: int -> seq<Entry<T>>, r: nat, n: nat)
    requires r <= n && forall k | r <= k < n :: roundOf(k) == []
    ensures Concat(roundOf, n) == Concat(roundOf, r)
    decreases n
  {
    if r < n {
      ConcatSettles(roundOf, r, n - 1);
    }
  }

  lemma RoundsSettle<T(!new)>(full: string -> seq<T>, keys: seq<string>, r: nat, n: nat, pace: int -> int)
    requires r <= n && forall i | 0 <= i < |keys| :: |full(keys[i])| <= r
    ensures Rounds(full, keys, n, pace) == Rounds(full, keys, r, pace)
  {
    var roundOf := RoundOf(full, keys, pace);
    forall k | r <= k < n ensures roundOf(k) == [] {
      EmptyRounds(full, keys, k, pace);
    }
    ConcatSettles(roundOf, r, n);
  }

  method DealAll<T(!new)>(keys: seq<string>, buckets0: map<string, seq<T>>, step: nat, ghost full: string -> seq<T>)
    returns (ordered: seq<Entry<T>>, ghost r: nat)
    requires Distinct(keys) && Covers(keys, buckets0)
    requires forall i | 0 <= i < |keys| :: buckets0[keys[i]] == full(keys[i])
    ensures ordered == Rounds(full, keys, r, Pace(step))
    ensures forall i | 0 <= i < |keys| :: |full(keys[i])| <= r
  {
    var buckets := buckets0;
    var counters: map<string, nat> := map[];
    var remaining := Remaining(keys, buckets);
    ordered := [];
    r := 0;
    while remaining > 0
      invariant Covers(keys, buckets) && remaining == Remaining(keys, buckets)
      invariant Halfway(full, keys, 0, r, buckets, counters)
      invariant ordered == Rounds(full, keys, r, Pace(step))
      decreases remaining
    {
      var dealt: seq<Entry<T>>;
      buckets, counters, dealt := DealRound(keys, step, full, r, buckets, counters);
      ordered := ordered + dealt;
      remaining := remaining - |dealt|;
      r := r + 1;
    }
    HalfwayEnd(full, keys, r, buckets, counters);
  }

  lemma AllDealt<T(!new)>(items: seq<T>, bastionOf: T -> string, r: nat, pace: int -> int)
    requires forall key | key in Bastions(items, bastionOf) :: |Only(items, bastionOf, key)| <= r
    ensures Rounds(Full(items, bastionOf), Bastions(items, bastionOf), r, pace) == Deal(items, bastionOf, pace)
  {
    var keys, full := Bastions(items, bastionOf), Full(items, bastionOf);
    forall i | 0 <= i < |keys| ensures |full(keys[i])| <= |items| {
      OnlyShape(items, bastionOf, keys[i]);
    }
    if r <= |items| {
      RoundsSettle(full, keys, r, |items|, pace);
    } else {
      RoundsSettle(full, keys, |items|, r, pace);
    }
  }

  method InterleaveByBastion<T(!new)>(items: seq<T>, bastionOf: T -> string, staggerSeconds: int)
    returns (ordered: seq<Entry<T>>)
    ensures ordered == Deal(items, bastionOf, Pace(if staggerSeconds > 0 then staggerSeconds else 0))
  {
    var step: nat := if staggerSeconds > 0 then staggerSeconds else 0;
    var keys, buckets := FillBuckets(items, bastionOf);
    ghost var r: nat;
    BastionsDistinct(items, bastionOf);
    ordered, r := DealAll(keys, buckets, step, Full(items, bastionOf));
    assert forall key | key in keys :: exists i | 0 <= i < |keys| :: keys[i] == key;
    AllDealt(items, bastionOf, r, Pace(step));
  }

  // ---------------------------------------------------------------- what the dealing guarantees

  /** The entries of one bastion among the first i, in dealing order. */
  function OfBastionUpTo<T(!new)>(ordered: seq<Entry<T>>, bastionOf: T -> string, key: string, i: nat): seq<Entry<T>>
    requires i <= |ordered|
  {
    if i == 0 then []
    else
      OfBastionUpTo(ordered, bastionOf, key, i - 1)
      + (if bastionOf(ordered[i - 1].item) == key then [ordered[i - 1]] else [])
  }

  function OfBastion<T(!new)>(ordered: seq<Entry<T>>, bastionOf: T -> string, key: string): seq<Entry<T>> {
    OfBastionUpTo(ordered, bastionOf, key, |ordered|)
  }

  lemma {:induction false} OfBastionPrefix<T(!new)>(a: seq<Entry<T>>, b: seq<Entry<T>>, bastionOf: T -> string,
                                                    key: string, i: nat)
    requires i <= |a|
    ensures OfBastionUpTo(a + b, bastionOf, key, i) == OfBastionUpTo(a, bastionOf, key, i)
    decreases i
  {
    if i > 0 {
      OfBastionPrefix(a, b, bastionOf, key, i - 1);
    }
  }

  lemma {:induction false} OfBastionConcat<T(!new)>(a: seq<Entry<T>>, b: seq<Entry<T>>, bastionOf: T -> string,
                                                    key: string, i: nat)
    requires i <= |b|
    ensures OfBastionUpTo(a + b, bastionOf, key, |a| + i)
         == OfBastion(a, bastionOf, key) + OfBastionUpTo(b, bastionOf, key, i)
    decreases i
  {
    if i == 0 {
      OfBastionPrefix(a, b, bastionOf, key, |a|);
    } else {
      OfBastionConcat(a, b, bastionOf, key, i - 1);
    }
  }

  lemma OfBoth<T(!new)>(a: seq<Entry<T>>, b: seq<Entry<T>>, bastionOf: T -> string, key: string,
                        ofA: seq<Entry<T>>, ofB: seq<Entry<T>>)
    requires OfBastion(a, bastionOf, key) == ofA && OfBastion(b, bastionOf, key) == ofB
    ensures OfBastion(a + b, bastionOf, key) == ofA + ofB
  {
    OfBastionConcat(a, b, bastionOf, key, |b|);
  }

  /** The first n items with countdowns pace(0), pace(1), ... */
  function Staggered<T(!new)>(own: seq<T>, n: nat, pace: int -> int): seq<Entry<T>> {
    seq(if n <= |own| then n else |own|, i requires 0 <= i < |own| => Entry(own[i], pace(i)))
  }

  lemma StaggeredNext<T(!new)>(own: seq<T>, n: nat, pace: int -> int)
    ensures Staggered(own, n + 1, pace) == Staggered(own, n, pace) + Nth(own, n, pace)
  {
  }

  /** Every bucket holds items of its own bastion, and bastions not listed have none. */
  ghost predicate Owned<T(!new)>(full: string -> seq<T>, keys: seq<string>, bastionOf: T -> string) {
    && (forall key, j | 0 <= j < |full(key)| :: bastionOf(full(key)[j]) == key)
    && (forall key | key !in keys :: full(key) == [])
  }

  lemma DealIsOwned<T(!new)>(items: seq<T>, bastionOf: T -> string)
    ensures Owned(Full(items, bastionOf), Bastions(items, bastionOf), bastionOf)
  {
    var keys, full := Bastions(items, bastionOf), Full(items, bastionOf);
    forall key, j | 0 <= j < |full(key)| ensures bastionOf(full(key)[j]) == key {
      OnlyShape(items, bastionOf, key);
      assert full(key)[j] in Only(items, bastionOf, key);
    }
    forall key | key !in keys ensures full(key) == [] {
      NoneYet(items, bastionOf, key);
    }
  }

  lemma OfNth<T(!new)>(full: string -> seq<T>, bastionOf: T -> string, r: nat, pace: int -> int, one: string,
                       key: string)
    requires forall j | 0 <= j < |full(one)| :: bastionOf(full(one)[j]) == one
    ensures OfBastion(Nth(full(one), r, pace), bastionOf, key) == if one == key then Nth(full(one), r, pace) else []
  {
    var own := Nth(full(one), r, pace);
    assert OfBastionUpTo(own, bastionOf, key, 0) == [];
  }

  lemma {:induction false} RoundOfListed<T(!new)>(full: string -> seq<T>, keys: seq<string>, bastionOf: T -> string,
                                                  r: nat, pace: int -> int, key: string)
    returns (round: seq<Entry<T>>)
    requires Distinct(keys) && forall k, j | 0 <= j < |full(k)| :: bastionOf(full(k)[j]) == k
    ensures round == Round(full, keys, r, pace)
    ensures OfBastion(round, bastionOf, key) == if key in keys then Nth(full(key), r, pace) else []
    decreases |keys|
  {
    if keys == [] {
      round := [];
    } else {
      var k := |keys| - 1;
      var before := RoundOfListed(full, keys[..k], bastionOf, r, pace, key);
      var own := Nth(full(keys[k]), r, pace);
      OfNth(full, bastionOf, r, pace, keys[k], key);
      OfBoth(before, own, bastionOf, key,
             if key in keys[..k] then Nth(full(key), r, pace) else [], if keys[k] == key then own else []);
      assert key in keys <==> key in keys[..k] || key == keys[k];
      round := before + own;
    }
  }

  /** Of each bastion, `round` holds entry number r and nothing else. */
  ghost predicate IsRound<T(!new)>(round: seq<Entry<T>>, full: string -> seq<T>, bastionOf: T -> string,
                                   r: nat, pace: int -> int)
  {
    forall key :: OfBastion(round, bastionOf, key) == Nth(full(key), r, pace)
  }

  /** Of each bastion, `ordered` holds the entries 0, ..., n - 1 in order. */
  ghost predicate InOrder<T(!new)>(ordered: seq<Entry<T>>, full: string -> seq<T>, bastionOf: T -> string,
                                   n: nat, pace: int -> int)
  {
    forall key :: OfBastion(ordered, bastionOf, key) == Staggered(full(key), n, pace)
  }

  lemma RoundIsRound<T(!new)>(items: seq<T>, bastionOf: T -> string, r: nat, pace: int -> int)
    ensures IsRound(RoundOf(Full(items, bastionOf), Bastions(items, bastionOf), pace)(r),
                    Full(items, bastionOf), bastionOf, r, pace)
  {
    var keys, full := Bastions(items, bastionOf), Full(items, bastionOf);
    DealIsOwned(items, bastionOf);
    BastionsDistinct(items, bastionOf);
    var round := Round(full, keys, r, pace);
    forall key ensures OfBastion(round, bastionOf, key) == Nth(full(key), r, pace) {
      var same := RoundOfListed(full, keys, bastionOf, r, pace, key);
    }
  }

  lemma InOrderNext<T(!new)>(before: seq<Entry<T>>, last: seq<Entry<T>>, full: string -> seq<T>, bastionOf: T -> string,
                             n: nat, pace: int -> int)
    requires InOrder(before, full, bastionOf, n, pace) && IsRound(last, full, bastionOf, n, pace)
    ensures InOrder(before + last, full, bastionOf, n + 1, pace)
  {
    forall key ensures OfBastion(before + last, bastionOf, key) == Staggered(full(key), n + 1, pace) {
      StaggeredNext(full(key), n, pace);
      OfBoth(before, last, bastionOf, key, Staggered(full(key), n, pace), Nth(full(key), n, pace));
    }
  }

  /** How many items of its own bastion come before position p. */
  function Rank<T(!new)>(ordered: seq<Entry<T>>, bastionOf: T -> string, p: nat): nat
    requires p < |ordered|
  {
    |OfBastionUpTo(ordered, bastionOf, bastionOf(ordered[p].item), p)|
  }

  lemma {:induction false} OwnInOfBastion<T(!new)>(ordered: seq<Entry<T>>, bastionOf: T -> string, p: nat, i: nat)
    requires p < i <= |ordered|
    ensures var own := OfBastionUpTo(ordered, bastionOf, bastionOf(ordered[p].item), i);
            Rank(ordered, bastionOf, p) < |own| && own[Rank(ordered, bastionOf, p)] == ordered[p]
    decreases i
  {
    if p < i - 1 {
      OwnInOfBastion(ordered, bastionOf, p, i - 1);
    }
  }

  lemma RankStays<T(!new)>(before: seq<Entry<T>>, last: seq<Entry<T>>, bastionOf: T -> string, p: nat)
    requires p < |before|
    ensures Rank(before + last, bastionOf, p) == Rank(before, bastionOf, p) && (before + last)[p] == before[p]
  {
    OfBastionPrefix(before, last, bastionOf, bastionOf(before[p].item), p);
  }

  lemma RankInRound<T(!new)>(before: seq<Entry<T>>, last: seq<Entry<T>>, full: string -> seq<T>, bastionOf: T -> string,
                             n: nat, pace: int -> int, p: nat)
    requires InOrder(before, full, bastionOf, n, pace) && IsRound(last, full, bastionOf, n, pace)
    requires |before| <= p < |before + last|
    ensures Rank(before + last, bastionOf, p) == n && (before + last)[p].countdown == pace(n)
  {
    var q := p - |before|;
    var key := bastionOf(last[q].item);
    OfBastionConcat(before, last, bastionOf, key, q);
    OwnInOfBastion(last, bastionOf, q, |last|);
    assert OfBastion(last, bastionOf, key) == Nth(full(key), n, pace);
    assert OfBastion(before, bastionOf, key) == Staggered(full(key), n, pace);
  }

  lemma {:induction false} ConcatInOrder<T(!new)>(roundOf: int -> seq<Entry<T>>, full: string -> seq<T>,
                                                  bastionOf: T -> string, n: nat, pace: int -> int)
    requires forall r | 0 <= r < n :: IsRound(roundOf(r), full, bastionOf, r, pace)
    ensures InOrder(Concat(roundOf, n), full, bastionOf, n, pace)
    decreases n
  {
    if n > 0 {
      ConcatInOrder(roundOf, full, bastionOf, n - 1, pace);
      InOrderNext(Concat(roundOf, n - 1), roundOf(n - 1), full, bastionOf, n - 1, pace);
    }
  }

  lemma {:induction false} ConcatSplits<T(!new)>(roundOf: int -> seq<Entry<T>>, m: nat, n: nat)
    returns (rest: seq<Entry<T>>)
    requires m <= n
    ensures Concat(roundOf, n) == Concat(roundOf, m) + rest
    decreases n
  {
    if m == n {
      rest := [];
    } else {
      var before := ConcatSplits(roundOf, m, n - 1);
      rest := before + roundOf(n - 1);
    }
  }

  lemma {:induction false} RoundAt<T(!new)>(roundOf: int -> seq<Entry<T>>, n: nat, p: nat) returns (r: nat)
    requires p < |Concat(roundOf, n)|
    ensures r < n && |Concat(roundOf, r)| <= p < |Concat(roundOf, r + 1)|
    decreases n
  {
    if p < |Concat(roundOf, n - 1)| {
      r := RoundAt(roundOf, n - 1, p);
    } else {
      r := n - 1;
    }
  }

  /** The rank of a position is the number of the round it lies in. */
  lemma RankIsRound<T(!new)>(roundOf: int -> seq<Entry<T>>, full: string -> seq<T>, bastionOf: T -> string,
                             n: nat, pace: int -> int, p: nat, r: nat)
    requires forall k | 0 <= k < n :: IsRound(roundOf(k), full, bastionOf, k, pace)
    requires r < n && |Concat(roundOf, r)| <= p < |Concat(roundOf, r + 1)| <= |Concat(roundOf, n)|
    ensures r == Rank(Concat(roundOf, n), bastionOf, p) && Concat(roundOf, n)[p].countdown == pace(r)
  {
    var rest := ConcatSplits(roundOf, r + 1, n);
    RankStays(Concat(roundOf, r + 1), rest, bastionOf, p);
    ConcatInOrder(roundOf, full, bastionOf, r, pace);
    RankInRound(Concat(roundOf, r), roundOf(r), full, bastionOf, r, pace, p);
  }

  lemma DealRounds<T(!new)>(items: seq<T>, bastionOf: T -> string, pace: int -> int)
    returns (roundOf: int -> seq<Entry<T>>)
    ensures Deal(items, bastionOf, pace) == Concat(roundOf, |items|)
    ensures forall r | 0 <= r < |items| :: IsRound(roundOf(r), Full(items, bastionOf), bastionOf, r, pace)
  {
    roundOf := RoundOf(Full(items, bastionOf), Bastions(items, bastionOf), pace);
    forall r | 0 <= r < |items| ensures IsRound(roundOf(r), Full(items, bastionOf), bastionOf, r, pace) {
      RoundIsRound(items, bastionOf, r, pace);
    }
  }

  /** Each bastion's items come out all, once, in input order, the n-th one with countdown pace(n). */
  lemma EachBastionInOrder<T(!new)>(items: seq<T>, bastionOf: T -> string, pace: int -> int, key: string)
    ensures OfBastion(Deal(items, bastionOf, pace), bastionOf, key)
         == Staggered(Only(items, bastionOf, key), |items|, pace)
    ensures |Staggered(Only(items, bastionOf, key), |items|, pace)| == |Only(items, bastionOf, key)|
  {
    var full := Full(items, bastionOf);
    var roundOf := DealRounds(items, bastionOf, pace);
    ConcatInOrder(roundOf, full, bastionOf, |items|, pace);
    assert OfBastion(Deal(items, bastionOf, pace), bastionOf, key) == Staggered(full(key), |items|, pace);
    OnlyShape(items, bastionOf, key);
  }

  function ItemsOf<T(!new)>(ordered: seq<Entry<T>>): seq<T> {
    seq(|ordered|, i requires 0 <= i < |ordered| => ordered[i].item)
  }

  lemma {:induction false} ItemsOfBastion<T(!new)>(ordered: seq<Entry<T>>, bastionOf: T -> string, key: string, i: nat)
    requires i <= |ordered|
    ensures Only(ItemsOf(ordered)[..i], bastionOf, key) == ItemsOf(OfBastionUpTo(ordered, bastionOf, key, i))
    decreases i
  {
    if i > 0 {
      ItemsOfBastion(ordered, bastionOf, key, i - 1);
      var items := ItemsOf(ordered);
      assert items[..i][..i - 1] == items[..i - 1];
    }
  }

  lemma {:induction false} CountInOnly<T(!new)>(items: seq<T>, bastionOf: T -> string, x: T)
    ensures multiset(items)[x] == multiset(Only(items, bastionOf, bastionOf(x)))[x]
    decreases |items|
  {
    if items != [] {
      var k := |items| - 1;
      CountInOnly(items[..k], bastionOf, x);
      assert items == items[..k] + [items[k]];
    }
  }

  /** Nothing is lost, nothing is dealt twice. */
  lemma DealIsPermutation<T(!new)>(items: seq<T>, bastionOf: T -> string, pace: int -> int)
    ensures multiset(ItemsOf(Deal(items, bastionOf, pace))) == multiset(items)
  {
    var ordered := Deal(items, bastionOf, pace);
    forall x: T ensures multiset(ItemsOf(ordered))[x] == multiset(items)[x] {
      var key := bastionOf(x);
      EachBastionInOrder(items, bastionOf, pace, key);
      ItemsOfBastion(ordered, bastionOf, key, |ordered|);
      assert ItemsOf(ordered)[..|ordered|] == ItemsOf(ordered);
      assert ItemsOf(Staggered(Only(items, bastionOf, key), |items|, pace)) == Only(items, bastionOf, key);
      CountInOnly(items, bastionOf, x);
      CountInOnly(ItemsOf(ordered), bastionOf, x);
    }
  }

  lemma RoundsFollow<T(!new)>(roundOf: int -> seq<Entry<T>>, n: nat, q: nat, a: nat, p: nat, b: nat)
    requires q <= p && a < n && b < n
    requires |Concat(roundOf, a)| <= q < |Concat(roundOf, a + 1)|
    requires |Concat(roundOf, b)| <= p < |Concat(roundOf, b + 1)|
    ensures a <= b && |Concat(roundOf, a + 1)| <= |Concat(roundOf, n)|
            && |Concat(roundOf, b + 1)| <= |Concat(roundOf, n)|
  {
    var afterA := ConcatSplits(roundOf, a + 1, n);
    var afterB := ConcatSplits(roundOf, b + 1, n);
    if b < a {
      var between := ConcatSplits(roundOf, b + 1, a);
    }
  }

  /** Item n of any bastion comes before item n + 1 of every bastion; countdowns are n * step and never go down. */
  lemma RanksRise<T(!new)>(items: seq<T>, bastionOf: T -> string, step: nat, q: nat, p: nat)
    requires q < p < |Deal(items, bastionOf, Pace(step))|
    ensures var ordered := Deal(items, bastionOf, Pace(step));
            && Rank(ordered, bastionOf, q) <= Rank(ordered, bastionOf, p)
            && ordered[p].countdown == Rank(ordered, bastionOf, p) * step
            && ordered[q].countdown <= ordered[p].countdown
  {
    var full, pace := Full(items, bastionOf), Pace(step);
    var roundOf := DealRounds(items, bastionOf, pace);
    var ordered := Deal(items, bastionOf, pace);
    var n := |items|;
    var a := RoundAt(roundOf, n, q);
    var b := RoundAt(roundOf, n, p);
    RoundsFollow(roundOf, n, q, a, p, b);
    RankIsRound(roundOf, full, bastionOf, n, pace, q, a);
    RankIsRound(roundOf, full, bastionOf, n, pace, p, b);
    PaceRises(a, b, step);
  }

  lemma PaceRises(a: nat, b: nat, step: nat)
    requires a <= b
    ensures Pace(step)(a) <= Pace(step)(b) == b * step
  {
    assert b * step == a * step + (b - a) * step;
  }
}
