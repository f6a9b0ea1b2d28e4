/** Counters and histograms of the metrics registry (src/bifrost/metrics.py:35-91), floats as reals. */
module Metrics {
  import opened Text

  type Key = seq<string>
  datatype Observation = Observation(key: Key, value: real)

  // ---- What a history of observations amounts to ----

  /** The values observed under one key, in order. */
  function ValuesOf(history: seq<Observation>, key: Key): seq<real> {
    if history == [] then []
    else
      var last := history[|history| - 1];
      ValuesOf(history[..|history| - 1], key) + if last.key == key then [last.value] else []
  }

  function Sum(values: seq<real>): real {
    if values == [] then 0.0 else Sum(values[..|values| - 1]) + values[|values| - 1]
  }

  /** How many values do not exceed the bound. */
  function CountUpTo(values: seq<real>, bound: real): nat {
    if values == [] then 0
    else CountUpTo(values[..|values| - 1], bound) + if values[|values| - 1] <= bound then 1 else 0
  }

  /** The cumulative buckets of a list of values; the last one, `+Inf`, holds them all. */
  function BucketsOf(values: seq<real>, bounds: seq<real>): seq<nat> {
    seq(|bounds|, i requires 0 <= i < |bounds| => CountUpTo(values, bounds[i])) + [|values|]
  }

  lemma ValuesSnoc(history: seq<Observation>, o: Observation, key: Key)
    ensures ValuesOf(history + [o], key)
      == if o.key == key then ValuesOf(history, key) + [o.value] else ValuesOf(history, key)
  {
    assert (history + [o])[..|history|] == history;
    assert ValuesOf(history, key) + [] == ValuesOf(history, key);
  }

  lemma ValuesGrow(values: seq<real>, v: real, bound: real)
    ensures CountUpTo(values + [v], bound) == CountUpTo(values, bound) + if v <= bound then 1 else 0
    ensures Sum(values + [v]) == Sum(values) + v
  {
    assert (values + [v])[..|values|] == values;
  }

  lemma {:induction false} CountUpToBounded(values: seq<real>, low: real, high: real)
    requires low <= high
    ensures CountUpTo(values, low) <= CountUpTo(values, high) <= |values|
  {
    if values != [] { CountUpToBounded(values[..|values| - 1], low, high); }
  }

  /** With sorted bounds the buckets of any values never decrease, up to the total. */
  lemma BucketsAreCumulative(values: seq<real>, bounds: seq<real>, i: nat, j: nat)
    requires forall a, b | 0 <= a < b < |bounds| :: bounds[a] <= bounds[b]
    requires i <= j <= |bounds|
    ensures var buckets := BucketsOf(values, bounds);
      buckets[i] <= buckets[j] <= buckets[|bounds|] == |values|
  {
    if j < |bounds| {
      CountUpToBounded(values, bounds[i], bounds[j]);
    } else if i < |bounds| {
      CountUpToBounded(values, bounds[i], bounds[i]);
    }
  }

  lemma {:induction false} CountUpToConcat(a: seq<real>, b: seq<real>, bound: real)
    ensures CountUpTo(a + b, bound) == CountUpTo(a, bound) + CountUpTo(b, bound)
    ensures Sum(a + b) == Sum(a) + Sum(b)
  {
    if b == [] {
      assert a + b == a;
    } else {
      assert (a + b)[..|a + b| - 1] == a + b[..|b| - 1];
      CountUpToConcat(a, b[..|b| - 1], bound);
    }
  }

  /** The difference of two neighbouring buckets is the number of values between their bounds. */
  lemma {:induction false} BucketDifference(values: seq<real>, low: real, high: real)
    requires low <= high
    ensures CountUpTo(values, high) - CountUpTo(values, low) == |Between(values, low, high)|
  {
    if values != [] { BucketDifference(values[..|values| - 1], low, high); }
  }

  function Between(values: seq<real>, low: real, high: real): seq<real> {
    if values == [] then []
    else
      Between(values[..|values| - 1], low, high)
      + if low < values[|values| - 1] <= high then [values[|values| - 1]] else []
  }

  /** The keys that a history has touched. */
  function KeysOf(history: seq<Observation>): set<Key> {
    set o | o in history :: o.key
  }

  lemma KeysGrow(history: seq<Observation>, o: Observation)
    ensures KeysOf(history + [o]) == KeysOf(history) + {o.key}
  {
    assert o in history + [o];
    assert forall p | p in history :: p in history + [o];
  }

  // ---- The metrics ----

  /** Per key that the history touches, or in `extra`: buckets, sum and count of the values observed under it. */
  ghost predicate Consistent(
    buckets: map<Key, seq<nat>>, sums: map<Key, real>, counts: map<Key, nat>, history: seq<Observation>,
    bounds: seq<real>, extra: set<Key>)
  {
    && buckets.Keys == sums.Keys == counts.Keys == KeysOf(history) + extra
    && forall key | key in buckets :: Holds(buckets[key], sums[key], counts[key], ValuesOf(history, key), bounds)
  }

  /** Buckets, sum and count of a list of values. */
  ghost predicate Holds(buckets: seq<nat>, sum: real, count: nat, values: seq<real>, bounds: seq<real>) {
    buckets == BucketsOf(values, bounds) && sum == Sum(values) && count == |values|
  }

  lemma ConsistentGrow(
    buckets: map<Key, seq<nat>>, sums: map<Key, real>, counts: map<Key, nat>, history: seq<Observation>,
    bounds: seq<real>, o: Observation)
    requires Consistent(buckets, sums, counts, history, bounds, {o.key})
    ensures var values := ValuesOf(history, o.key) + [o.value];
      Consistent(buckets[o.key := BucketsOf(values, bounds)], sums[o.key := Sum(values)],
        counts[o.key := |values|], history + [o], bounds, {})
  {
    hide ValuesOf, Sum, BucketsOf, KeysOf, Holds;
    var values := ValuesOf(history, o.key) + [o.value];
    var b, s, n := BucketsOf(values, bounds), Sum(values), |values|;
    HoldsThem(values, bounds);
    KeysGrow(history, o);
    var newBuckets, newSums, newCounts := buckets[o.key := b], sums[o.key := s], counts[o.key := n];
    forall key | key in newBuckets
      ensures Holds(newBuckets[key], newSums[key], newCounts[key], ValuesOf(history + [o], key), bounds)
    {
      ValuesSnoc(history, o, key);
    }
  }

  lemma SameKeys(
    buckets: map<Key, seq<nat>>, sums: map<Key, real>, counts: map<Key, nat>, history: seq<Observation>,
    bounds: seq<real>)
    requires Consistent(buckets, sums, counts, history, bounds, {})
    ensures buckets.Keys == sums.Keys == counts.Keys
    ensures forall key | key in buckets :: |buckets[key]| == |bounds| + 1
  {
    hide ValuesOf, Sum, CountUpTo, KeysOf;
  }

  lemma HoldsThem(values: seq<real>, bounds: seq<real>)
    ensures Holds(BucketsOf(values, bounds), Sum(values), |values|, values, bounds)
  {
  }

  /** Increments the bucket of every bound that the value does not exceed, and the last one. */
  method CountInto(counts: seq<nat>, bounds: seq<real>, value: real, ghost seen: seq<real>) returns (r: seq<nat>)
    requires counts == BucketsOf(seen, bounds)
    ensures r == BucketsOf(seen + [value], bounds)
    ensures |r| == |counts| == |bounds| + 1
    ensures forall i | 0 <= i <= |bounds| :: r[i] == counts[i] + if i == |bounds| || value <= bounds[i] then 1 else 0
  {
    hide CountUpTo;
    r := counts;
    for i := 0 to |bounds|
      invariant |r| == |bounds| + 1 && r[|bounds|] == |seen|
      invariant forall j | 0 <= j < i :: r[j] == CountUpTo(seen + [value], bounds[j])
      invariant forall j | i <= j < |bounds| :: r[j] == CountUpTo(seen, bounds[j])
      invariant forall j | 0 <= j <= |bounds| :: r[j] == counts[j] + if j < i && value <= bounds[j] then 1 else 0
    {
      ValuesGrow(seen, value, bounds[i]);
      if value <= bounds[i] {
        r := r[i := r[i] + 1];
      }
    }
    r := r[|bounds| := r[|bounds|] + 1];
  }

  class Histogram {
    const bounds: seq<real>
    var buckets: map<Key, seq<nat>>
    var sums: map<Key, real>
    var counts: map<Key, nat>
    ghost var history: seq<Observation>

    ghost predicate Valid()
      reads this
    {
      Consistent(buckets, sums, counts, history, bounds, {})
    }

    constructor (bounds: seq<real>)
      ensures Valid() && history == [] && this.bounds == bounds
    {
      this.bounds := bounds;
      buckets, sums, counts, history := map[], map[], map[], [];
    }

    /** Zeroes under a key that has none yet. */
    method Touch(labels: Key)
      requires Valid()
      modifies `buckets, `sums, `counts
      ensures Consistent(buckets, sums, counts, history, bounds, {labels})
      ensures labels in buckets && labels in sums && labels in counts
      ensures var seen := ValuesOf(history, labels);
        buckets[labels] == BucketsOf(seen, bounds) && sums[labels] == Sum(seen) && counts[labels] == |seen|
      ensures buckets
        == if labels in old(buckets) then old(buckets) else old(buckets)[labels := seq(|bounds| + 1, _ => 0)]
      ensures sums == if labels in old(buckets) then old(sums) else old(sums)[labels := 0.0]
      ensures counts == if labels in old(buckets) then old(counts) else old(counts)[labels := 0]
    {
      hide ValuesOf, Sum, CountUpTo, BucketsOf, KeysOf;
      if labels !in buckets {
        buckets := buckets[labels := seq(|bounds| + 1, _ => 0)];
        sums := sums[labels := 0.0];
        counts := counts[labels := 0];
        Untouched(history, labels);
        EmptyBuckets(bounds);
      }
    }

    /** One observation extends the history by itself. */
    method Observe(labels: Key, value: real)
      requires Valid()
      modifies this
      ensures Valid() && history == old(history) + [Observation(labels, value)]
      ensures labels in buckets && labels in sums && labels in counts && |buckets[labels]| == |bounds| + 1
      ensures sums[labels] == (if labels in old(sums) then old(sums)[labels] else 0.0) + value
      ensures counts[labels] == (if labels in old(counts) then old(counts)[labels] else 0) + 1
      ensures labels in old(buckets) ==> |old(buckets)[labels]| == |bounds| + 1
      ensures forall i | 0 <= i <= |bounds| ::
        buckets[labels][i] == (if labels in old(buckets) then old(buckets)[labels][i] else 0)
          + if i == |bounds| || value <= bounds[i] then 1 else 0
      ensures forall key | key in old(buckets) && key in old(sums) && key in old(counts) && key != labels ::
        && key in buckets && buckets[key] == old(buckets)[key]
        && key in sums && sums[key] == old(sums)[key] && key in counts && counts[key] == old(counts)[key]
    {
      hide ValuesOf, Sum, CountUpTo, BucketsOf, KeysOf, Consistent;
      ghost var seen := ValuesOf(history, labels);
      SameKeys(buckets, sums, counts, history, bounds);
      Touch(labels);
      ConsistentGrow(buckets, sums, counts, history, bounds, Observation(labels, value));
      var counted := CountInto(buckets[labels], bounds, value, seen);
      buckets := buckets[labels := counted];
      sums := sums[labels := sums[labels] + value];
      counts := counts[labels := counts[labels] + 1];
      ValuesGrow(seen, value, value);
      history := history + [Observation(labels, value)];
    }

    method Collect(labels: Key) returns (found: bool, bucketCounts: seq<nat>, sum: real, count: nat)
      requires Valid()
      ensures found <==> ValuesOf(history, labels) != []
      ensures found ==>
        && bucketCounts == BucketsOf(ValuesOf(history, labels), bounds)
        && sum == Sum(ValuesOf(history, labels))
        && count == |ValuesOf(history, labels)|
    {
      TouchedHasValues(history, labels);
      found := labels in buckets;
      if found {
        bucketCounts, sum, count := buckets[labels], sums[labels], counts[labels];
      } else {
        bucketCounts, sum, count := [], 0.0, 0;
      }
    }
  }

  lemma {:induction false} Untouched(history: seq<Observation>, key: Key)
    requires key !in KeysOf(history)
    ensures ValuesOf(history, key) == []
  {
    if history != [] {
      var init, last := history[..|history| - 1], history[|history| - 1];
      assert last in history && forall o | o in init :: o in history;
      Untouched(init, key);
    }
  }

  lemma {:induction false} TouchedHasValues(history: seq<Observation>, key: Key)
    ensures key in KeysOf(history) <==> ValuesOf(history, key) != []
  {
    if history != [] {
      var init, last := history[..|history| - 1], history[|history| - 1];
      assert history == init + [last];
      TouchedHasValues(init, key);
      assert key in KeysOf(history) <==> key in KeysOf(init) || last.key == key by {
        assert last in history;
        assert forall o | o in init :: o in history;
      }
    }
  }

  lemma EmptyBuckets(bounds: seq<real>)
    ensures BucketsOf([], bounds) == seq(|bounds| + 1, _ => 0) && Sum([]) == 0.0
  {
  }

  class Counter {
    var values: map<Key, real>
    ghost var history: seq<Observation>

    ghost predicate Valid()
      reads this
    {
      && values.Keys == KeysOf(history)
      && forall key | key in values :: values[key] == Sum(ValuesOf(history, key))
    }

    constructor ()
      ensures Valid() && history == []
    {
      values, history := map[], [];
    }

    method Inc(labels: Key, amount: real)
      requires Valid()
      modifies this
      ensures Valid() && history == old(history) + [Observation(labels, amount)]
      ensures values == old(values)[labels := (if labels in old(values) then old(values)[labels] else 0.0) + amount]
    {
      hide ValuesOf, Sum, KeysOf;
      ghost var seen := ValuesOf(history, labels);
      if labels !in values {
        Untouched(history, labels);
        EmptyBuckets([]);
      }
      values := values[labels := (if labels in values then values[labels] else 0.0) + amount];
      ValuesGrow(seen, amount, amount);
      history := history + [Observation(labels, amount)];
      KeysGrow(old(history), Observation(labels, amount));
      forall key
        ensures ValuesOf(history, key)
          == if key == labels then ValuesOf(old(history), key) + [amount] else ValuesOf(old(history), key)
      {
        ValuesSnoc(old(history), Observation(labels, amount), key);
      }
    }
  }

  // ---- Order ----

  lemma {:induction false} KeptObservations(a: seq<Observation>, b: seq<Observation>, key: Key)
    ensures ValuesOf(a + b, key) == ValuesOf(a, key) + ValuesOf(b, key)
  {
    if b == [] {
      assert a + b == a;
    } else {
      assert (a + b)[..|a + b| - 1] == a + b[..|b| - 1];
      KeptObservations(a, b[..|b| - 1], key);
    }
  }

  /** What is reported of one key, by its parts: the number of values, those up to a bound, and their sum. */
  predicate ReportAlike(v: seq<real>, w: seq<real>, bound: real) {
    |v| == |w| && CountUpTo(v, bound) == CountUpTo(w, bound) && Sum(v) == Sum(w)
  }

  lemma MovedToEnd(p: seq<real>, x: seq<real>, q: seq<real>, bound: real)
    ensures ReportAlike(p + x + q, p + q + x, bound)
  {
    hide CountUpTo, Sum;
    CountUpToConcat(p + x, q, bound);
    CountUpToConcat(p, x, bound);
    CountUpToConcat(p + q, x, bound);
    CountUpToConcat(p, q, bound);
  }

  lemma GrowAlike(v: seq<real>, w: seq<real>, x: seq<real>, bound: real)
    requires ReportAlike(v, w, bound)
    ensures ReportAlike(v + x, w + x, bound)
  {
    hide CountUpTo, Sum;
    CountUpToConcat(v, x, bound);
    CountUpToConcat(w, x, bound);
  }

  lemma {:induction false} RearrangedAlike(a: seq<Observation>, b: seq<Observation>, key: Key, bound: real)
    requires multiset(a) == multiset(b)
    ensures ReportAlike(ValuesOf(a, key), ValuesOf(b, key), bound)
  {
    hide ValuesOf, ReportAlike;
    if a == [] {
      assert b == [] by { assert |multiset(b)| == 0; }
      assert ReportAlike(ValuesOf(a, key), ValuesOf(a, key), bound) by { AlikeItself(ValuesOf(a, key), bound); }
    } else {
      var p, q := Extract(a, b);
      var init, x := a[..|a| - 1], [a[|a| - 1]];
      assert a == init + x;
      RearrangedAlike(init, p + q, key, bound);
      KeptObservations(init, x, key);
      KeptObservations(p, q, key);
      KeptObservations(p + x, q, key);
      KeptObservations(p, x, key);
      var vp, vx, vq := ValuesOf(p, key), ValuesOf(x, key), ValuesOf(q, key);
      GrowAlike(ValuesOf(init, key), vp + vq, vx, bound);
      MovedToEnd(vp, vx, vq, bound);
      AlikeThrough(ValuesOf(a, key), vp + vq + vx, vp + vx + vq, bound);
    }
  }

  lemma AlikeItself(v: seq<real>, bound: real)
    ensures ReportAlike(v, v, bound)
  {
  }

  lemma AlikeThrough(u: seq<real>, v: seq<real>, w: seq<real>, bound: real)
    requires ReportAlike(u, v, bound) && ReportAlike(w, v, bound)
    ensures ReportAlike(u, w, bound)
  {
  }

  /** Whatever the order of the same observations, the metric reports the same under every key. */
  lemma OrderDoesNotMatter(a: seq<Observation>, b: seq<Observation>, key: Key, bounds: seq<real>)
    requires multiset(a) == multiset(b)
    ensures var v, w := ValuesOf(a, key), ValuesOf(b, key);
      BucketsOf(v, bounds) == BucketsOf(w, bounds) && Sum(v) == Sum(w) && (v == [] <==> w == [])
  {
    hide ValuesOf;
    var v, w := ValuesOf(a, key), ValuesOf(b, key);
    forall bound: real ensures ReportAlike(v, w, bound) {
      RearrangedAlike(a, b, key, bound);
    }
    assert ReportAlike(v, w, 0.0);
    forall i | 0 <= i < |bounds| ensures CountUpTo(v, bounds[i]) == CountUpTo(w, bounds[i]) {
      assert ReportAlike(v, w, bounds[i]);
    }
    assert BucketsOf(v, bounds) == BucketsOf(w, bounds);
  }
}
