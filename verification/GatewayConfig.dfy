/** The gateway's configuration lookups (src/bifrost/config.py:881-932). */
module GatewayConfig {
  import opened Text

  datatype Strategy = Direct | Failover | CostOptimised | RoundRobin | LatencyOptimised

  /** A provider entry; the providers are listed in configuration order. */
  datatype Provider = Provider(name: string, models: seq<string>, costPerToken: real)

  /** A catalog entry of the configuration; `details` stands for its descriptive fields. */
  datatype ModelConfig = ModelConfig(id: string, vendor: string, details: string)

  datatype Config = Config(
    providers: seq<Provider>, models: seq<ModelConfig>, aliases: map<string, string>,
    strategy: Strategy, modelStrategies: map<string, Strategy>, alpha: real)

  function ResolveAlias(c: Config, model: string): string {
    if model in c.aliases then c.aliases[model] else model
  }

  function ModelEntry(models: seq<ModelConfig>, id: string): (r: Option<ModelConfig>)
    ensures r.Some? ==> r.value in models && r.value.id == id
    ensures r.None? ==> forall m | m in models :: m.id != id
  {
    if models == [] then None
    else if models[0].id == id then Some(models[0])
    else ModelEntry(models[1..], id)
  }

  /** The names of the providers that list a model, in configuration order. */
  function Listing(providers: seq<Provider>, model: string): seq<string> {
    if providers == [] then []
    else
      Listing(providers[..|providers| - 1], model)
      + if model in providers[|providers| - 1].models then [providers[|providers| - 1].name] else []
  }

  function ProvidersForModel(c: Config, model: string): seq<string> {
    Listing(c.providers, ResolveAlias(c, model))
  }

  function StrategyFor(c: Config, model: string): Strategy {
    if model in c.modelStrategies then c.modelStrategies[model]
    else if ResolveAlias(c, model) in c.modelStrategies then c.modelStrategies[ResolveAlias(c, model)]
    else c.strategy
  }

  /** Provider names are the keys of a dictionary. */
  predicate DistinctProviders(c: Config) {
    forall i, j | 0 <= i < j < |c.providers| :: c.providers[i].name != c.providers[j].name
  }

  predicate Distinct<T(==)>(xs: seq<T>) {
    forall i, j | 0 <= i < j < |xs| :: xs[i] != xs[j]
  }

  lemma {:induction false} ListingMember(providers: seq<Provider>, model: string, name: string)
    ensures name in Listing(providers, model) <==> exists p :: p in providers && p.name == name && model in p.models
  {
    if providers != [] {
      var init, last := providers[..|providers| - 1], providers[|providers| - 1];
      assert providers == init + [last];
      ListingMember(init, model, name);
    }
  }

  lemma {:induction false} ListingDistinct(providers: seq<Provider>, model: string)
    requires forall i, j | 0 <= i < j < |providers| :: providers[i].name != providers[j].name
    ensures Distinct(Listing(providers, model))
  {
    if providers != [] {
      var init, last := providers[..|providers| - 1], providers[|providers| - 1];
      ListingDistinct(init, model);
      ListingMember(init, model, last.name);
    }
  }

  /** A model's providers stand in configuration order, each provider once for every time it is configured. */
  lemma {:induction false} ListingJoin(a: seq<Provider>, b: seq<Provider>, model: string)
    ensures Listing(a + b, model) == Listing(a, model) + Listing(b, model)
    ensures |b| == 1 ==> Listing(b, model) == if model in b[0].models then [b[0].name] else []
  {
    if b == [] {
      assert a + b == a;
    } else {
      assert (a + b)[..|a + b| - 1] == a + b[..|b| - 1];
      ListingJoin(a, b[..|b| - 1], model);
    }
  }

  /** The strategy of a name: the one configured for it, else for what it is an alias of, else the general one. */
  predicate Effective(c: Config, name: string, s: Strategy) {
    var target := if name in c.aliases then c.aliases[name] else name;
    && (name in c.modelStrategies ==> c.modelStrategies[name] == s)
    && (name !in c.modelStrategies && target in c.modelStrategies ==> c.modelStrategies[target] == s)
    && (name !in c.modelStrategies && target !in c.modelStrategies ==> c.strategy == s)
  }

  lemma StrategyIsEffective(c: Config, name: string, s: Strategy)
    ensures Effective(c, name, s) <==> StrategyFor(c, name) == s
  {
  }

  /** An entry that is found is the first of its id. */
  lemma {:induction false} ModelEntryIsFirst(models: seq<ModelConfig>, id: string)
    ensures ModelEntry(models, id).Some? ==>
      exists k | 0 <= k < |models| ::
        models[k] == ModelEntry(models, id).value && forall j | 0 <= j < k :: models[j].id != id
  {
    if models != [] && models[0].id != id {
      ModelEntryIsFirst(models[1..], id);
      if ModelEntry(models[1..], id).Some? {
        var k :| 0 <= k < |models[1..]| && models[1..][k] == ModelEntry(models, id).value
          && forall j | 0 <= j < k :: models[1..][j].id != id;
        assert models[k + 1] == models[1..][k];
        forall j | 0 <= j < k + 1 ensures models[j].id != id {
          if j > 0 { assert models[j] == models[1..][j - 1]; }
        }
      }
    }
  }
}
