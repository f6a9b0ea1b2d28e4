/** Candidate selection, failover and latency tracking of the gateway's router (src/bifrost/router.py:104-256). */
module Router {
  import opened Text
  import opened GatewayConfig

  type Candidate = (string, string)

  // ---- Stable sorting ----

  /** The order key of a provider: unmeasured providers, of rank 1, come after measured ones. */
  datatype SortKey = SortKey(rank: int, value: real)

  predicate KeyLe(a: SortKey, b: SortKey) {
    a.rank < b.rank || (a.rank == b.rank && a.value <= b.value)
  }

  /** Inserts behind everything whose key is not greater. */
  function InsertStable(x: string, sorted: seq<string>, key: string -> SortKey): seq<string> {
    if sorted == [] then [x]
    else if KeyLe(key(sorted[|sorted| - 1]), key(x)) then sorted + [x]
    else InsertStable(x, sorted[..|sorted| - 1], key) + [sorted[|sorted| - 1]]
  }

  /** `sorted(xs, key=key)`. */
  function SortStable(xs: seq<string>, key: string -> SortKey): seq<string> {
    if xs == [] then [] else InsertStable(xs[|xs| - 1], SortStable(xs[..|xs| - 1], key), key)
  }

  predicate Ordered(xs: seq<string>, key: string -> SortKey) {
    forall i, j | 0 <= i < j < |xs| :: KeyLe(key(xs[i]), key(xs[j]))
  }

  /** The elements with one key, in their order. */
  function WithKey(xs: seq<string>, key: string -> SortKey, k: SortKey): seq<string> {
    if xs == [] then []
    else WithKey(xs[..|xs| - 1], key, k) + if key(xs[|xs| - 1]) == k then [xs[|xs| - 1]] else []
  }

  lemma WithKeySnoc(xs: seq<string>, x: string, key: string -> SortKey, k: SortKey)
    ensures WithKey(xs + [x], key, k) == WithKey(xs, key, k) + if key(x) == k then [x] else []
  {
    assert (xs + [x])[..|xs|] == xs;
  }

  lemma {:induction false} InsertMembers(x: string, xs: seq<string>, key: string -> SortKey)
    ensures multiset(InsertStable(x, xs, key)) == multiset(xs) + multiset{x}
  {
    if xs != [] {
      var init, last := xs[..|xs| - 1], xs[|xs| - 1];
      assert xs == init + [last];
      InsertMembers(x, init, key);
    }
  }

  lemma {:induction false} InsertKeepsOrder(x: string, xs: seq<string>, key: string -> SortKey)
    requires Ordered(xs, key)
    ensures Ordered(InsertStable(x, xs, key), key)
  {
    if xs != [] && !KeyLe(key(xs[|xs| - 1]), key(x)) {
      var init, last := xs[..|xs| - 1], xs[|xs| - 1];
      InsertKeepsOrder(x, init, key);
      InsertMembers(x, init, key);
      var r := InsertStable(x, init, key);
      forall i | 0 <= i < |r| ensures KeyLe(key(r[i]), key(last)) {
        assert r[i] in multiset(r);
        assert r[i] == x || r[i] in init;
      }
    }
  }

  lemma {:induction false} InsertIsStable(x: string, xs: seq<string>, key: string -> SortKey, k: SortKey)
    ensures WithKey(InsertStable(x, xs, key), key, k) == WithKey(xs + [x], key, k)
  {
    if xs == [] {
      assert xs + [x] == [x];
    } else if !KeyLe(key(xs[|xs| - 1]), key(x)) {
      var init, last := xs[..|xs| - 1], xs[|xs| - 1];
      InsertIsStable(x, init, key, k);
      WithKeySnoc(InsertStable(x, init, key), last, key, k);
      WithKeySnoc(xs, x, key, k);
      WithKeySnoc(init, last, key, k);
      WithKeySnoc(init, x, key, k);
      assert init + [last] == xs;
      assert key(last) != key(x);
    }
  }

  /** Sorting keeps the elements, orders them by key, and keeps the given order among equal keys. */
  lemma {:induction false} SortIsStable(xs: seq<string>, key: string -> SortKey, k: SortKey)
    ensures Ordered(SortStable(xs, key), key)
    ensures multiset(SortStable(xs, key)) == multiset(xs)
    ensures WithKey(SortStable(xs, key), key, k) == WithKey(xs, key, k)
  {
    hide InsertStable, KeyLe;
    if xs != [] {
      var init, last := xs[..|xs| - 1], xs[|xs| - 1];
      assert xs == init + [last];
      SortIsStable(init, key, k);
      InsertMembers(last, SortStable(init, key), key);
      InsertKeepsOrder(last, SortStable(init, key), key);
      InsertIsStable(last, SortStable(init, key), key, k);
      WithKeySnoc(SortStable(init, key), last, key, k);
      WithKeySnoc(init, last, key, k);
    }
  }

  // ---- Candidates ----

  function Paired(providers: seq<string>, model: string): seq<Candidate> {
    seq(|providers|, i requires 0 <= i < |providers| => (providers[i], model))
  }

  function CostKey(c: Config): string -> SortKey {
    name => SortKey(0, CostOf(c.providers, name))
  }

  function CostOf(providers: seq<Provider>, name: string): real {
    if providers == [] then 0.0
    else if providers[0].name == name then providers[0].costPerToken
    else CostOf(providers[1..], name)
  }

  function LatencyKey(ewma: map<string, real>): string -> SortKey {
    name => if name in ewma then SortKey(0, ewma[name]) else SortKey(1, 0.0)
  }

  function CounterOf(counters: map<string, nat>, model: string): nat {
    if model in counters then counters[model] else 0
  }

  /** The list that starts with element `i` and wraps around. */
  function Rotated(xs: seq<string>, i: nat): seq<string>
    requires i <= |xs|
  {
    xs[i..] + xs[..i]
  }

  /** What is tried for a requested name; `None` is the error of a model that no provider serves. */
  function Candidates(c: Config, counters: map<string, nat>, ewma: map<string, real>, raw: string)
    : Option<seq<Candidate>>
  {
    var model := ResolveAlias(c, raw);
    var providers := ProvidersForModel(c, model);
    if providers == [] then None
    else match StrategyFor(c, raw)
      case Direct => Some([(providers[0], model)])
      case Failover => Some(Paired(providers, model))
      case CostOptimised => Some(Paired(SortStable(providers, CostKey(c)), model))
      case RoundRobin =>
        var i := CounterOf(counters, model);
        Some(Paired(Rotated(providers, if i <= |providers| then i else |providers|), model))
      case LatencyOptimised => Some(Paired(SortStable(providers, LatencyKey(ewma)), model))
  }

  /** The counters after a request for a name. */
  function NextCounters(c: Config, counters: map<string, nat>, raw: string): map<string, nat> {
    var model := ResolveAlias(c, raw);
    var providers := ProvidersForModel(c, model);
    if providers != [] && StrategyFor(c, raw) == RoundRobin
    then counters[model := (CounterOf(counters, model) + 1) % |providers|]
    else counters
  }

  /** Every stored counter is below the number of providers of its model. */
  predicate CountersBounded(c: Config, counters: map<string, nat>) {
    forall m | m in counters :: counters[m] < |ProvidersForModel(c, m)|
  }

  /**
   Latency ordering is a stable permutation: measured providers first by estimate, ties and the others as
   configured.
   */
  lemma LatencyOrder(providers: seq<string>, ewma: map<string, real>, i: nat, j: nat, estimate: real)
    requires i < j < |providers|
    ensures var s := SortStable(providers, LatencyKey(ewma));
      && multiset(s) == multiset(providers) && |s| == |providers|
      && (s[j] in ewma ==> s[i] in ewma && ewma[s[i]] <= ewma[s[j]])
      && WithKey(s, LatencyKey(ewma), SortKey(0, estimate))
        == WithKey(providers, LatencyKey(ewma), SortKey(0, estimate))
      && WithKey(s, LatencyKey(ewma), SortKey(1, 0.0)) == WithKey(providers, LatencyKey(ewma), SortKey(1, 0.0))
  {
    hide WithKey;
    var key := LatencyKey(ewma);
    var s := SortStable(providers, key);
    SortIsStable(providers, key, SortKey(0, estimate));
    SortIsStable(providers, key, SortKey(1, 0.0));
    assert |multiset(s)| == |multiset(providers)|;
    assert KeyLe(key(s[i]), key(s[j]));
  }

  /** Cost ordering is a stable permutation, cheapest first. */
  lemma CostOrder(c: Config, providers: seq<string>, i: nat, j: nat, cost: real)
    requires i < j < |providers|
    ensures var s := SortStable(providers, CostKey(c));
      && multiset(s) == multiset(providers) && |s| == |providers|
      && CostOf(c.providers, s[i]) <= CostOf(c.providers, s[j])
      && WithKey(s, CostKey(c), SortKey(0, cost)) == WithKey(providers, CostKey(c), SortKey(0, cost))
  {
    hide WithKey, CostOf;
    var key := CostKey(c);
    var s := SortStable(providers, key);
    SortIsStable(providers, key, SortKey(0, cost));
    assert |multiset(s)| == |multiset(providers)|;
    assert KeyLe(key(s[i]), key(s[j]));
  }

  /** The price of a provider is that of its entry, and nothing for a name that has none. */
  lemma {:induction false} PriceIsConfigured(providers: seq<Provider>, name: string)
    ensures (forall p | p in providers :: p.name != name) ==> CostOf(providers, name) == 0.0
    ensures forall p | p in providers && p.name == name ::
      (forall i, j | 0 <= i < j < |providers| :: providers[i].name != providers[j].name)
      ==> CostOf(providers, name) == p.costPerToken
  {
    if providers != [] {
      PriceIsConfigured(providers[1..], name);
      assert providers == [providers[0]] + providers[1..];
    }
  }

  // ---- What is tried, strategy by strategy ----

  /** The elements that a test accepts, in their order. */
  function Those(xs: seq<string>, keep: string -> bool): seq<string> {
    if xs == [] then [] else Those(xs[..|xs| - 1], keep) + if keep(xs[|xs| - 1]) then [xs[|xs| - 1]] else []
  }

  function Priced(c: Config, xs: seq<string>, price: real): seq<string> {
    Those(xs, n => CostOf(c.providers, n) == price)
  }

  function Timed(ewma: map<string, real>, xs: seq<string>, estimate: real): seq<string> {
    Those(xs, n => n in ewma && ewma[n] == estimate)
  }

  /** The same names, cheapest first; equally cheap ones in the given order. */
  ghost predicate CheapestFirst(c: Config, given: seq<string>, names: seq<string>) {
    && multiset(names) == multiset(given)
    && (forall i, j | 0 <= i < j < |names| :: CostOf(c.providers, names[i]) <= CostOf(c.providers, names[j]))
    && (forall price :: Priced(c, names, price) == Priced(c, given, price))
  }

  /** The same names, the measured ones first and fastest first; ties, and the unmeasured ones, in the given order. */
  ghost predicate FastestFirst(ewma: map<string, real>, given: seq<string>, names: seq<string>) {
    && multiset(names) == multiset(given)
    && (forall i, j | 0 <= i < j < |names| && names[j] in ewma ::
          names[i] in ewma && ewma[names[i]] <= ewma[names[j]])
    && (forall estimate :: Timed(ewma, names, estimate) == Timed(ewma, given, estimate))
    && Those(names, n => n !in ewma) == Those(given, n => n !in ewma)
  }

  /** The names in the given order from some place on, and then around. */
  predicate FromPlace(given: seq<string>, names: seq<string>, place: nat) {
    |names| == |given| && forall k | 0 <= k < |names| :: names[k] == given[(place + k) % |given|]
  }

  /** What each strategy makes of the providers of a model, whose round-robin counter stands at `place`. */
  ghost predicate Arranged(
    c: Config, ewma: map<string, real>, s: Strategy, place: nat, given: seq<string>, names: seq<string>)
  {
    match s
    case Direct => given != [] && names == [given[0]]
    case Failover => names == given
    case CostOptimised => CheapestFirst(c, given, names)
    case LatencyOptimised => FastestFirst(ewma, given, names)
    case RoundRobin => FromPlace(given, names, place)
  }

  lemma {:induction false} ThoseAreWithKey(
    xs: seq<string>, keep: string -> bool, key: string -> SortKey, k: SortKey)
    requires forall n :: keep(n) <==> key(n) == k
    ensures Those(xs, keep) == WithKey(xs, key, k)
  {
    if xs != [] { ThoseAreWithKey(xs[..|xs| - 1], keep, key, k); }
  }

  lemma CostIsCheapestFirst(c: Config, given: seq<string>)
    ensures CheapestFirst(c, given, SortStable(given, CostKey(c)))
  {
    hide WithKey, Those, CostOf, SortStable;
    var key := CostKey(c);
    var names := SortStable(given, key);
    SortIsStable(given, key, SortKey(0, 0.0));
    forall i, j | 0 <= i < j < |names| ensures CostOf(c.providers, names[i]) <= CostOf(c.providers, names[j]) {
      assert KeyLe(key(names[i]), key(names[j]));
    }
    forall cost ensures Priced(c, names, cost) == Priced(c, given, cost) {
      SortIsStable(given, key, SortKey(0, cost));
      ThoseAreWithKey(names, n => CostOf(c.providers, n) == cost, key, SortKey(0, cost));
      ThoseAreWithKey(given, n => CostOf(c.providers, n) == cost, key, SortKey(0, cost));
    }
  }

  lemma LatencyIsFastestFirst(ewma: map<string, real>, given: seq<string>)
    ensures FastestFirst(ewma, given, SortStable(given, LatencyKey(ewma)))
  {
    hide WithKey, Those, SortStable;
    var key := LatencyKey(ewma);
    var names := SortStable(given, key);
    SortIsStable(given, key, SortKey(1, 0.0));
    forall i, j | 0 <= i < j < |names| && names[j] in ewma
      ensures names[i] in ewma && ewma[names[i]] <= ewma[names[j]]
    {
      assert KeyLe(key(names[i]), key(names[j]));
    }
    forall x ensures Timed(ewma, names, x) == Timed(ewma, given, x) {
      SortIsStable(given, key, SortKey(0, x));
      ThoseAreWithKey(names, n => n in ewma && ewma[n] == x, key, SortKey(0, x));
      ThoseAreWithKey(given, n => n in ewma && ewma[n] == x, key, SortKey(0, x));
    }
    ThoseAreWithKey(names, n => n !in ewma, key, SortKey(1, 0.0));
    ThoseAreWithKey(given, n => n !in ewma, key, SortKey(1, 0.0));
  }

  lemma RotatedFromPlace(given: seq<string>, place: nat)
    requires place < |given|
    ensures FromPlace(given, Rotated(given, place), place)
  {
    var names, n := Rotated(given, place), |given|;
    forall k | 0 <= k < |names| ensures names[k] == given[(place + k) % n] {
      var q := if place + k < n then 0 else 1;
      DivUnique(place + k, n, q, place + k - q * n);
      RotatedAt(given, place, k);
    }
  }

  lemma RotatedAt(given: seq<string>, place: nat, k: nat)
    requires place < |given| && k < |given|
    ensures |Rotated(given, place)| == |given|
    ensures Rotated(given, place)[k] == given[if place + k < |given| then place + k else place + k - |given|]
  {
  }

  /** The names of some candidates. */
  function NamesOf(candidates: seq<Candidate>): seq<string> {
    seq(|candidates|, i requires 0 <= i < |candidates| => candidates[i].0)
  }

  lemma PairedNames(providers: seq<string>, model: string)
    ensures NamesOf(Paired(providers, model)) == providers
    ensures forall cand | cand in Paired(providers, model) :: cand.1 == model
  {
  }

  /**
   A request tries the providers of its name's target, each for the target, arranged as the strategy of the
   name says, and fails exactly if there are none.
   */
  lemma CandidatesAreArranged(
    c: Config, counters: map<string, nat>, ewma: map<string, real>, raw: string, s: Strategy)
    requires CountersBounded(c, counters) && Effective(c, raw, s)
    ensures var model := if raw in c.aliases then c.aliases[raw] else raw;
      var r := Candidates(c, counters, ewma, raw);
      && (r.None? <==> ProvidersForModel(c, model) == [])
      && (r.Some? ==>
          && (forall cand | cand in r.value :: cand.1 == model)
          && Arranged(c, ewma, s, if model in counters then counters[model] else 0,
               ProvidersForModel(c, model), NamesOf(r.value)))
  {
    hide ProvidersForModel, SortStable, CheapestFirst, FastestFirst, FromPlace, Paired, NamesOf, Effective,
      CountersBounded;
    StrategyIsEffective(c, raw, s);
    hide StrategyFor;
    var model := ResolveAlias(c, raw);
    var providers := ProvidersForModel(c, model);
    if providers != [] {
      match s
      case Direct => OneName(providers[0], model);
      case Failover => PairedNames(providers, model);
      case CostOptimised =>
        CostIsCheapestFirst(c, providers);
        PairedNames(SortStable(providers, CostKey(c)), model);
      case LatencyOptimised =>
        LatencyIsFastestFirst(ewma, providers);
        PairedNames(SortStable(providers, LatencyKey(ewma)), model);
      case RoundRobin =>
        CounterBelow(c, counters, model);
        RotatedFromPlace(providers, CounterOf(counters, model));
        PairedNames(Rotated(providers, CounterOf(counters, model)), model);
    }
  }

  /** So it is after any requests, with the counter at the number of turns, modulo the providers. */
  lemma BuiltAreArranged(c: Config, requests: seq<string>, ewma: map<string, real>, raw: string, s: Strategy)
    requires Effective(c, raw, s)
    ensures var model := if raw in c.aliases then c.aliases[raw] else raw;
      var providers := ProvidersForModel(c, model);
      var r := Candidates(c, CountersAfter(c, requests), ewma, raw);
      && (r.None? <==> providers == [])
      && (r.Some? ==>
          && (forall cand | cand in r.value :: cand.1 == model)
          && Arranged(c, ewma, s, Turns(c, requests, model) % |providers|, providers, NamesOf(r.value)))
  {
    hide ProvidersForModel, Candidates, CountersBounded, Arranged, Effective, NamesOf, CountersAfter;
    var model := if raw in c.aliases then c.aliases[raw] else raw;
    CountersStayBounded(c, requests);
    CandidatesAreArranged(c, CountersAfter(c, requests), ewma, raw, s);
    if ProvidersForModel(c, model) != [] {
      CounterIsTurns(c, requests, model);
    }
  }

  lemma OneName(name: string, model: string)
    ensures NamesOf([(name, model)]) == [name] && forall cand | cand in [(name, model)] :: cand.1 == model
  {
  }

  lemma CounterBelow(c: Config, counters: map<string, nat>, model: string)
    requires CountersBounded(c, counters) && ProvidersForModel(c, model) != []
    ensures CounterOf(counters, model) < |ProvidersForModel(c, model)|
  {
  }

  // ---- Round robin ----

  /** A request for `raw` rotates the providers of `model`. */
  predicate Rotates(c: Config, raw: string, model: string) {
    ResolveAlias(c, raw) == model && StrategyFor(c, raw) == RoundRobin
  }

  function CountersAfter(c: Config, requests: seq<string>): map<string, nat> {
    if requests == [] then map[]
    else NextCounters(c, CountersAfter(c, requests[..|requests| - 1]), requests[|requests| - 1])
  }

  /** The round-robin requests for a model. */
  function Turns(c: Config, requests: seq<string>, model: string): nat {
    if requests == [] then 0
    else Turns(c, requests[..|requests| - 1], model) + if Rotates(c, requests[|requests| - 1], model) then 1 else 0
  }

  /** How often a provider led the candidates of a round-robin request for the model. */
  function Led(c: Config, requests: seq<string>, model: string, provider: string): nat {
    if requests == [] then 0
    else
      var init, raw := requests[..|requests| - 1], requests[|requests| - 1];
      var tried := Candidates(c, CountersAfter(c, init), map[], raw);
      Led(c, init, model, provider)
      + if Rotates(c, raw, model) && tried.Some? && tried.value != [] && tried.value[0] == (provider, model)
        then 1 else 0
  }

  /** The numbers below `k` that leave remainder `i`. */
  function TimesUp(k: nat, n: nat, i: nat): nat
    requires i < n
  {
    if k == 0 then 0 else TimesUp(k - 1, n, i) + if (k - 1) % n == i then 1 else 0
  }

  lemma {:induction false} TimesUpIs(k: nat, n: nat, i: nat)
    requires i < n
    ensures TimesUp(k, n, i) == k / n + if i < k % n then 1 else 0
  {
    if k > 0 {
      var m := k - 1;
      TimesUpIs(m, n, i);
      DivStep(m, n);
      var r := m % n;
      assert TimesUp(k, n, i) == TimesUp(m, n, i) + if r == i then 1 else 0;
      if r + 1 < n {
        assert k / n == m / n && k % n == r + 1;
      } else {
        assert k / n == m / n + 1 && k % n == 0;
      }
    } else {
      DivUnique(0, n, 0, 0);
    }
  }

  lemma DivStep(k: nat, n: nat)
    requires n > 0
    ensures k % n + 1 < n ==> (k + 1) / n == k / n && (k + 1) % n == k % n + 1
    ensures k % n + 1 == n ==> (k + 1) / n == k / n + 1 && (k + 1) % n == 0
  {
    var q, r := k / n, k % n;
    assert k == q * n + r;
    if r + 1 < n {
      DivUnique(k + 1, n, q, r + 1);
    } else {
      assert k + 1 == (q + 1) * n;
      DivUnique(k + 1, n, q + 1, 0);
    }
  }

  lemma DivUnique(k: nat, n: nat, q: nat, r: nat)
    requires n > 0 && k == q * n + r && r < n
    ensures k / n == q && k % n == r
  {
    var d := k / n - q;
    assert k == (k / n) * n + k % n;
    assert d * n == r - k % n;
    assert d > 0 ==> d * n >= n;
    assert d < 0 ==> d * n + n <= 0;
  }

  /** The counter of a model is its number of turns, modulo the number of its providers. */
  lemma {:induction false} CounterIsTurns(c: Config, requests: seq<string>, model: string)
    requires ProvidersForModel(c, model) != []
    ensures CounterOf(CountersAfter(c, requests), model) == Turns(c, requests, model) % |ProvidersForModel(c, model)|
    ensures model in CountersAfter(c, requests) <==> Turns(c, requests, model) > 0
  {
    hide ProvidersForModel, StrategyFor, ResolveAlias;
    if requests != [] {
      var init := requests[..|requests| - 1];
      CounterIsTurns(c, init, model);
      var n, k := |ProvidersForModel(c, model)|, Turns(c, init, model);
      DivStep(k, n);
      if k % n + 1 == n {
        DivUnique(k % n + 1, n, 1, 0);
      } else {
        DivUnique(k % n + 1, n, 0, k % n + 1);
      }
    }
  }

  lemma {:induction false} CountersStayBounded(c: Config, requests: seq<string>)
    ensures CountersBounded(c, CountersAfter(c, requests))
  {
    hide ProvidersForModel, StrategyFor, ResolveAlias;
    if requests != [] {
      CountersStayBounded(c, requests[..|requests| - 1]);
    }
  }

  lemma RotationLeader(c: Config, counters: map<string, nat>, raw: string, model: string)
    requires Rotates(c, raw, model) && ProvidersForModel(c, model) != []
    requires CounterOf(counters, model) < |ProvidersForModel(c, model)|
    ensures var p := ProvidersForModel(c, model); var i := CounterOf(counters, model);
      && Candidates(c, counters, map[], raw) == Some(Paired(Rotated(p, i), model))
      && Paired(Rotated(p, i), model)[0] == (p[i], model)
  {
    hide ProvidersForModel, StrategyFor, SortStable;
  }

  lemma {:induction false} LedIsTimesUp(c: Config, requests: seq<string>, model: string, i: nat)
    requires DistinctProviders(c) && i < |ProvidersForModel(c, model)|
    ensures Led(c, requests, model, ProvidersForModel(c, model)[i])
      == TimesUp(Turns(c, requests, model), |ProvidersForModel(c, model)|, i)
  {
    hide ProvidersForModel, StrategyFor, ResolveAlias, Candidates;
    if requests != [] {
      var init, raw := requests[..|requests| - 1], requests[|requests| - 1];
      LedIsTimesUp(c, init, model, i);
      if Rotates(c, raw, model) {
        CounterIsTurns(c, init, model);
        RotationLeader(c, CountersAfter(c, init), raw, model);
        ProvidersAreDistinct(c, model);
      }
    }
  }

  lemma ProvidersAreDistinct(c: Config, model: string)
    requires DistinctProviders(c)
    ensures Distinct(ProvidersForModel(c, model))
  {
    ListingDistinct(c.providers, ResolveAlias(c, model));
  }

  /**
   Over any interleaving of requests, after `k` round-robin requests for a model with `n` providers each of
   them has led ⌊k/n⌋ or ⌈k/n⌉ times: the first `k mod n` of them once more than the others.
   */
  lemma RoundRobinIsFair(c: Config, requests: seq<string>, model: string, i: nat)
    requires DistinctProviders(c) && i < |ProvidersForModel(c, model)|
    ensures var n, k := |ProvidersForModel(c, model)|, Turns(c, requests, model);
      Led(c, requests, model, ProvidersForModel(c, model)[i]) == k / n + if i < k % n then 1 else 0
  {
    LedIsTimesUp(c, requests, model, i);
    TimesUpIs(Turns(c, requests, model), |ProvidersForModel(c, model)|, i);
  }

  /** Each candidate list of a round-robin request is a rotation of all the providers of the model. */
  lemma RoundRobinRotates(c: Config, requests: seq<string>, raw: string)
    requires StrategyFor(c, raw) == RoundRobin
    ensures var model := ResolveAlias(c, raw); var p := ProvidersForModel(c, model);
      p != [] ==> exists i: nat | i < |p| ::
        Candidates(c, CountersAfter(c, requests), map[], raw) == Some(Paired(Rotated(p, i), model))
  {
    hide ProvidersForModel, SortStable, Candidates, Paired;
    var model := ResolveAlias(c, raw);
    if ProvidersForModel(c, model) != [] {
      CounterIsTurns(c, requests, model);
      RotationLeader(c, CountersAfter(c, requests), raw, model);
    }
  }

  // ---- Latency estimates ----

  /** The stored estimate after a list of recorded latencies. */
  function Ewma(alpha: real, xs: seq<real>): real
    requires xs != []
  {
    if |xs| == 1 then xs[0]
    else alpha * xs[|xs| - 1] + (1.0 - alpha) * Ewma(alpha, xs[..|xs| - 1])
  }

  function Pow(b: real, n: nat): real {
    if n == 0 then 1.0 else b * Pow(b, n - 1)
  }

  /** The weight of record `i` among `n`: it fades by `1 - alpha` with every later record. */
  function Weight(alpha: real, n: nat, i: nat): real
    requires i < n
  {
    Pow(1.0 - alpha, n - 1 - i) * if i == 0 then 1.0 else alpha
  }

  function WeightedSum(alpha: real, xs: seq<real>, n: nat, k: nat): real
    requires k <= |xs| && k <= n
  {
    if k == 0 then 0.0 else WeightedSum(alpha, xs, n, k - 1) + Weight(alpha, n, k - 1) * xs[k - 1]
  }

  lemma {:induction false} WeightsFade(alpha: real, xs: seq<real>, n: nat, k: nat)
    requires k <= |xs| && k <= n
    ensures WeightedSum(alpha, xs, n + 1, k) == (1.0 - alpha) * WeightedSum(alpha, xs, n, k)
  {
    hide Weight;
    if k > 0 {
      var b, w, x, s := 1.0 - alpha, Weight(alpha, n, k - 1), xs[k - 1], WeightedSum(alpha, xs, n, k - 1);
      WeightsFade(alpha, xs, n, k - 1);
      FadedWeight(alpha, n, k - 1);
      Distribute(b, s, w, x);
      assert WeightedSum(alpha, xs, n, k) == s + w * x;
      assert WeightedSum(alpha, xs, n + 1, k) == b * s + (b * w) * x;
    }
  }

  lemma FadedWeight(alpha: real, n: nat, i: nat)
    requires i < n
    ensures Weight(alpha, n + 1, i) == (1.0 - alpha) * Weight(alpha, n, i)
  {
    var b, f := 1.0 - alpha, if i == 0 then 1.0 else alpha;
    assert Pow(b, n - i) == b * Pow(b, n - 1 - i);
    MulAssoc(b, Pow(b, n - 1 - i), f);
  }

  lemma MulAssoc(a: real, b: real, c: real)
    ensures a * b * c == a * (b * c)
  {
  }

  lemma Distribute(b: real, s: real, w: real, x: real)
    ensures b * s + (b * w) * x == b * (s + w * x)
  {
    MulAssoc(b, w, x);
    assert b * (s + w * x) == b * s + b * (w * x);
  }

  lemma {:induction false} WeightedPrefix(alpha: real, xs: seq<real>, ys: seq<real>, n: nat, k: nat)
    requires k <= |xs| && k <= |ys| && k <= n && forall i | 0 <= i < k :: xs[i] == ys[i]
    ensures WeightedSum(alpha, xs, n, k) == WeightedSum(alpha, ys, n, k)
  {
    hide Weight;
    if k > 0 { WeightedPrefix(alpha, xs, ys, n, k - 1); }
  }

  /** The estimate is the weighted sum of everything recorded. */
  lemma {:induction false} EwmaClosedForm(alpha: real, xs: seq<real>)
    requires xs != []
    ensures Ewma(alpha, xs) == WeightedSum(alpha, xs, |xs|, |xs|)
  {
    var n := |xs| - 1;
    assert Pow(1.0 - alpha, 0) == 1.0;
    if n == 0 {
      assert WeightedSum(alpha, xs, 1, 0) == 0.0;
    } else {
      var init := xs[..n];
      EwmaClosedForm(alpha, init);
      WeightsFade(alpha, init, n, n);
      WeightedPrefix(alpha, xs, init, n + 1, n);
    }
  }

  lemma ProductNonNegative(a: real, b: real)
    requires a >= 0.0 && b >= 0.0
    ensures a * b >= 0.0
  {
  }

  lemma Between(alpha: real, x: real, y: real, low: real, high: real)
    requires 0.0 <= alpha <= 1.0 && low <= x <= high && low <= y <= high
    ensures low <= alpha * x + (1.0 - alpha) * y <= high
  {
    var b := 1.0 - alpha;
    ProductNonNegative(alpha, x - low);
    ProductNonNegative(b, y - low);
    ProductNonNegative(alpha, high - x);
    ProductNonNegative(b, high - y);
  }

  /** The estimate lies between the least and the greatest latency ever recorded. */
  lemma {:induction false} EwmaBounded(alpha: real, xs: seq<real>, low: real, high: real)
    requires xs != [] && 0.0 <= alpha <= 1.0 && forall x | x in xs :: low <= x <= high
    ensures low <= Ewma(alpha, xs) <= high
  {
    var init, last := xs[..|xs| - 1], xs[|xs| - 1];
    assert last in xs;
    if init != [] {
      assert forall x | x in init :: x in xs;
      EwmaBounded(alpha, init, low, high);
      Between(alpha, last, Ewma(alpha, init), low, high);
    }
  }

  // ---- Requests ----

  /** What a provider does with a call; `Crash` is any exception that the router does not catch. */
  datatype Response = Reply(text: string, elapsed: real) | HttpStatus(code: int) | ProviderError | Crash

  datatype Outcome = Completed(text: string) | Raised(code: int) | Crashed | AllFailed | NoProvider

  /** The failures that move on to the next candidate. */
  predicate Retryable(r: Response) {
    r.ProviderError? || (r.HttpStatus? && r.code in {429, 500, 502, 503, 504})
  }

  /** The first candidate that does not fail retryably, or the number of candidates. */
  function FirstDecisive(candidates: seq<Candidate>, respond: Candidate -> Response): (i: nat)
    ensures i <= |candidates|
    ensures forall j | 0 <= j < i :: Retryable(respond(candidates[j]))
    ensures i < |candidates| ==> !Retryable(respond(candidates[i]))
  {
    if candidates == [] || !Retryable(respond(candidates[0])) then 0
    else 1 + FirstDecisive(candidates[1..], respond)
  }

  lemma DecisiveIs(candidates: seq<Candidate>, respond: Candidate -> Response, i: nat)
    requires i <= |candidates| && forall j | 0 <= j < i :: Retryable(respond(candidates[j]))
    requires i < |candidates| ==> !Retryable(respond(candidates[i]))
    ensures FirstDecisive(candidates, respond) == i
  {
  }

  /** What lets a request go on to the next provider: too many requests, a server's failure, a provider's error. */
  predicate FailsOver(r: Response) {
    match r
    case Reply(_, _) => false
    case HttpStatus(code) => code == 429 || code == 500 || 502 <= code <= 504
    case ProviderError => true
    case Crash => false
  }

  /** A request stops at the first provider that does not fail over, and comes to what that provider does. */
  lemma FailoverStops(candidates: seq<Candidate>, respond: Candidate -> Response)
    ensures var i := FirstDecisive(candidates, respond);
      && (forall j | 0 <= j < i :: FailsOver(respond(candidates[j])))
      && (i < |candidates| ==>
          && !FailsOver(respond(candidates[i]))
          && match respond(candidates[i])
             case Reply(text, _) => OutcomeOf(respond(candidates[i])) == Completed(text)
             case HttpStatus(code) => OutcomeOf(respond(candidates[i])) == Raised(code)
             case Crash => OutcomeOf(respond(candidates[i])) == Crashed
             case ProviderError => false)
  {
    hide FirstDecisive;
    forall r ensures FailsOver(r) <==> Retryable(r) { }
  }

  /** The providers of some candidates. */
  ghost function Named(candidates: seq<Candidate>): set<string> {
    set c | c in candidates :: c.0
  }

  lemma NamedSnoc(candidates: seq<Candidate>, i: nat)
    requires i < |candidates|
    ensures Named(candidates[..i + 1]) == Named(candidates[..i]) + {candidates[i].0}
  {
    assert candidates[..i + 1] == candidates[..i] + [candidates[i]];
  }

  /** One more latency recorded for a provider. */
  ghost function Noted(recorded: map<string, seq<real>>, provider: string, elapsed: real): map<string, seq<real>> {
    recorded[provider := (if provider in recorded then recorded[provider] else []) + [elapsed]]
  }

  function OutcomeOf(r: Response): Outcome
    requires !Retryable(r)
  {
    match r
    case Reply(text, _) => Completed(text)
    case HttpStatus(code) => Raised(code)
    case Crash => Crashed
  }

  class ModelRouter {
    const config: Config
    var adapters: set<string>
    var counters: map<string, nat>
    var ewma: map<string, real>
    /** Every name requested so far. */
    ghost var requests: seq<string>
    /** Every latency recorded for a provider. */
    ghost var recorded: map<string, seq<real>>

    ghost predicate Valid()
      reads this
    {
      && counters == CountersAfter(config, requests)
      && ewma.Keys == recorded.Keys
      && forall p | p in ewma :: recorded[p] != [] && ewma[p] == Ewma(config.alpha, recorded[p])
    }

    constructor (config: Config)
      ensures Valid() && this.config == config && adapters == {} && requests == [] && recorded == map[]
    {
      this.config := config;
      adapters, counters, ewma := {}, map[], map[];
      requests, recorded := [], map[];
    }

    method GetAdapter(provider: string)
      modifies `adapters
      ensures adapters == old(adapters) + {provider}
    {
      if provider !in adapters {
        adapters := adapters + {provider};
      }
    }

    method RecordLatency(provider: string, elapsed: real)
      requires Valid()
      modifies `ewma, `recorded
      ensures Valid()
      ensures recorded == Noted(old(recorded), provider, elapsed)
    {
      hide CountersAfter;
      ghost var xs := if provider in recorded then recorded[provider] else [];
      assert (xs + [elapsed])[..|xs|] == xs;
      if provider !in ewma {
        ewma := ewma[provider := elapsed];
      } else {
        ewma := ewma[provider := config.alpha * elapsed + (1.0 - config.alpha) * ewma[provider]];
      }
      recorded := recorded[provider := xs + [elapsed]];
    }

    method BuildCandidates(raw: string) returns (r: Option<seq<Candidate>>)
      requires Valid()
      modifies `counters, `requests
      ensures Valid() && requests == old(requests) + [raw]
      ensures r == Candidates(config, old(counters), ewma, raw)
      ensures var model := if raw in config.aliases then config.aliases[raw] else raw;
        var providers := ProvidersForModel(config, model);
        && (r.None? <==> providers == [])
        && (r.Some? ==>
            && (forall cand | cand in r.value :: cand.1 == model)
            && forall s | Effective(config, raw, s) ::
                 Arranged(config, ewma, s, Turns(config, old(requests), model) % |providers|, providers,
                   NamesOf(r.value)))
    {
      r := Arrange(raw);
      hide ProvidersForModel, Ewma, Candidates, Arranged, Effective, NamesOf, CountersAfter, Turns, StrategyFor;
      StrategyIsEffective(config, raw, StrategyFor(config, raw));
      forall s | Effective(config, raw, s) {
        BuiltAreArranged(config, old(requests), ewma, raw, s);
      }
      BuiltAreArranged(config, old(requests), ewma, raw, StrategyFor(config, raw));
    }

    method Arrange(raw: string) returns (r: Option<seq<Candidate>>)
      requires Valid()
      modifies `counters, `requests
      ensures Valid() && requests == old(requests) + [raw]
      ensures r == Candidates(config, old(counters), ewma, raw)
    {
      hide ProvidersForModel, SortStable, Paired, Ewma;
      CountersStayBounded(config, requests);
      assert (requests + [raw])[..|requests|] == requests;
      requests := requests + [raw];
      var model := ResolveAlias(config, raw);
      var providers := ProvidersForModel(config, model);
      if providers == [] {
        return None;
      }
      match StrategyFor(config, raw)
      case Direct => return Some([(providers[0], model)]);
      case Failover => return Some(Paired(providers, model));
      case CostOptimised => return Some(Paired(SortStable(providers, CostKey(config)), model));
      case LatencyOptimised => return Some(Paired(SortStable(providers, LatencyKey(ewma)), model));
      case RoundRobin =>
        var i := CounterOf(counters, model);
        counters := counters[model := (i + 1) % |providers|];
        return Some(Paired(providers[i..] + providers[..i], model));
    }

    /** Tries candidates in order; a loop of its own so that the choice of candidates stays out of its proof. */
    method TryInOrder(candidates: seq<Candidate>, respond: Candidate -> Response)
      returns (outcome: Outcome, ghost tried: nat)
      requires Valid()
      modifies `adapters, `ewma, `recorded
      ensures Valid() && tried <= |candidates|
      ensures adapters == old(adapters) + Named(candidates[..tried])
      ensures var i := FirstDecisive(candidates, respond);
        if i == |candidates| then
          outcome == AllFailed && tried == i && ewma == old(ewma) && recorded == old(recorded)
        else
          var r := respond(candidates[i]);
          && outcome == OutcomeOf(r) && tried == i + 1
          && (!r.Reply? ==> ewma == old(ewma) && recorded == old(recorded))
          && (r.Reply? ==> recorded == Noted(old(recorded), candidates[i].0, r.elapsed))
    {
      hide FirstDecisive, Ewma, CountersAfter, Noted;
      for i := 0 to |candidates|
        invariant Valid() && ewma == old(ewma) && recorded == old(recorded)
        invariant adapters == old(adapters) + Named(candidates[..i])
        invariant forall j | 0 <= j < i :: Retryable(respond(candidates[j]))
      {
        var c := candidates[i];
        NamedSnoc(candidates, i);
        GetAdapter(c.0);
        var r := respond(c);
        if !Retryable(r) {
          DecisiveIs(candidates, respond, i);
        }
        match r
        case Reply(text, elapsed) =>
          RecordLatency(c.0, elapsed);
          return Completed(text), i + 1;
        case HttpStatus(code) =>
          if code !in {429, 500, 502, 503, 504} {
            return Raised(code), i + 1;
          }
        case ProviderError =>
        case Crash =>
          return Crashed, i + 1;
      }
      DecisiveIs(candidates, respond, |candidates|);
      return AllFailed, |candidates|;
    }

    /**
     Routes one request.  The candidates are tried in order up to the first that does not fail retryably,
     and its answer, or its error, is the request's; only an answering provider's estimate moves.
     */
    method Complete(raw: string, respond: Candidate -> Response) returns (outcome: Outcome, ghost tried: seq<Candidate>)
      requires Valid()
      modifies this
      ensures Valid() && requests == old(requests) + [raw]
      ensures adapters == old(adapters) + Named(tried)
      ensures var candidates := Candidates(config, old(counters), old(ewma), raw);
        if candidates.None? then
          outcome == NoProvider && tried == [] && ewma == old(ewma) && recorded == old(recorded)
        else
          var i := FirstDecisive(candidates.value, respond);
          if i == |candidates.value| then
            outcome == AllFailed && tried == candidates.value && ewma == old(ewma) && recorded == old(recorded)
          else
            var c, r := candidates.value[i], respond(candidates.value[i]);
            && outcome == OutcomeOf(r) && tried == candidates.value[..i + 1]
            && (!r.Reply? ==> ewma == old(ewma) && recorded == old(recorded))
            && (r.Reply? ==> recorded == Noted(old(recorded), c.0, r.elapsed))
    {
      hide Candidates, CountersAfter, Ewma, FirstDecisive, OutcomeOf, Retryable, Noted;
      var built := BuildCandidates(raw);
      if built.None? {
        return NoProvider, [];
      }
      ghost var k: nat;
      outcome, k := TryInOrder(built.value, respond);
      tried := built.value[..k];
    }
  }
}
