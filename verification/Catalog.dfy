/** The gateway's model catalog, derived from the same configuration as its routing (src/bifrost/catalog.py:34-139). */
module Catalog {
  import opened Text
  import opened SortedText
  import opened GatewayConfig
  import Router

  /** What an entry describes: a configured model, or one known only from the provider that serves it. */
  datatype Description = Configured(model: ModelConfig) | Synthetic(id: string, primary: string)

  datatype Entry = Entry(about: Description, aliases: seq<string>, providerKeys: seq<string>)

  /** A provider that serves a canonical model. */
  type Offer = (string, string)

  function IdOf(d: Description): string {
    match d
    case Configured(model) => model.id
    case Synthetic(id, _) => id
  }

  // ---- What the providers offer ----

  function OffersOf(c: Config, name: string, models: seq<string>): seq<Offer> {
    if models == [] then []
    else OffersOf(c, name, models[..|models| - 1]) + [(ResolveAlias(c, models[|models| - 1]), name)]
  }

  function Offers(c: Config, providers: seq<Provider>): seq<Offer> {
    if providers == [] then []
    else
      var last := providers[|providers| - 1];
      Offers(c, providers[..|providers| - 1]) + OffersOf(c, last.name, last.models)
  }

  /** The providers of one model, in the order of the offers. */
  function KeysOf(offers: seq<Offer>, id: string): seq<string> {
    if offers == [] then []
    else
      var (offered, name) := offers[|offers| - 1];
      KeysOf(offers[..|offers| - 1], id) + if offered == id then [name] else []
  }

  /** The offered models, by first offer. */
  function OfferedIds(offers: seq<Offer>): seq<string> {
    if offers == [] then []
    else
      var earlier, id := OfferedIds(offers[..|offers| - 1]), offers[|offers| - 1].0;
      if id in earlier then earlier else earlier + [id]
  }

  predicate IsConfigured(c: Config, id: string) {
    ModelEntry(c.models, id).Some?
  }

  /** The offered models that the configuration does not list. */
  function Unlisted(c: Config, ids: seq<string>): seq<string> {
    if ids == [] then []
    else Unlisted(c, ids[..|ids| - 1]) + if IsConfigured(c, ids[|ids| - 1]) then [] else [ids[|ids| - 1]]
  }

  function DescriptionOf(c: Config, id: string, keys: seq<string>): Description {
    match ModelEntry(c.models, ResolveAlias(c, id))
    case Some(model) => Configured(model)
    case None => Synthetic(id, if keys == [] then "" else keys[0])
  }

  ghost function AliasesAmong(c: Config, names: set<string>, id: string): set<string> {
    set a | a in names && a in c.aliases && c.aliases[a] == id && a != id
  }

  /** The sorted list of the aliases of a model; an alias of itself is none. */
  ghost predicate IsAliasList(c: Config, id: string, aliases: seq<string>) {
    Sorted(aliases) && multiset(aliases) == multiset(AliasesAmong(c, c.aliases.Keys, id))
  }

  ghost predicate Describes(c: Config, e: Entry, about: Description, keys: seq<string>) {
    e.about == about && e.providerKeys == keys && IsAliasList(c, IdOf(about), e.aliases)
  }

  ghost predicate DescribesOffer(c: Config, e: Entry, offers: seq<Offer>, id: string) {
    Describes(c, e, DescriptionOf(c, id, KeysOf(offers, id)), KeysOf(offers, id))
  }

  /** The configured models in order, and then the offered ones that are not configured, by first offer. */
  ghost predicate IsCatalog(c: Config, entries: seq<Entry>) {
    var offers, n := Offers(c, c.providers), |c.models|;
    var rest := Unlisted(c, OfferedIds(offers));
    && |entries| == n + |rest|
    && (forall k | 0 <= k < n :: Describes(c, entries[k], Configured(c.models[k]), KeysOf(offers, c.models[k].id)))
    && (forall k | n <= k < |entries| :: DescribesOffer(c, entries[k], offers, rest[k - n]))
  }

  // ---- Building the catalog ----

  /** `dict.get(id, [])`. */
  function Found(lists: map<string, seq<string>>, id: string): seq<string> {
    if id in lists then lists[id] else []
  }

  ghost predicate GroupsAliases(c: Config, names: set<string>, lists: map<string, seq<string>>) {
    forall id :: multiset(Found(lists, id)) == multiset(AliasesAmong(c, names, id))
  }

  function Grouped(lists: map<string, seq<string>>, target: string, alias: string): map<string, seq<string>> {
    if alias == target then lists else lists[target := Found(lists, target) + [alias]]
  }

  lemma NothingGrouped(c: Config)
    ensures GroupsAliases(c, {}, map[])
  {
    forall id ensures AliasesAmong(c, {}, id) == {} { }
  }

  lemma GroupOne(c: Config, done: set<string>, lists: map<string, seq<string>>, alias: string)
    requires GroupsAliases(c, done, lists) && alias in c.aliases && alias !in done
    ensures GroupsAliases(c, done + {alias}, Grouped(lists, c.aliases[alias], alias))
  {
    var grouped := Grouped(lists, c.aliases[alias], alias);
    forall id ensures multiset(Found(grouped, id)) == multiset(AliasesAmong(c, done + {alias}, id)) {
      GroupAt(c, done, lists, alias, id);
    }
  }

  lemma GroupAt(c: Config, done: set<string>, lists: map<string, seq<string>>, alias: string, id: string)
    requires GroupsAliases(c, done, lists) && alias in c.aliases && alias !in done
    ensures multiset(Found(Grouped(lists, c.aliases[alias], alias), id))
      == multiset(AliasesAmong(c, done + {alias}, id))
  {
    var before := AliasesAmong(c, done, id);
    assert multiset(Found(lists, id)) == multiset(before);
    assert alias !in before;
    OneMoreAlias(c, done, alias, id);
    GroupedFound(lists, c.aliases[alias], alias, id);
    hide AliasesAmong, GroupsAliases, Found, Grouped;
    if id == c.aliases[alias] && alias != id {
      OneMoreOf(before, alias);
    } else {
      assert before + {} == before;
    }
  }

  lemma OneMoreOf(before: set<string>, alias: string)
    requires alias !in before
    ensures multiset(before + {alias}) == multiset(before) + multiset{alias}
  {
  }

  lemma GroupedFound(lists: map<string, seq<string>>, target: string, alias: string, id: string)
    ensures Found(Grouped(lists, target, alias), id)
      == Found(lists, id) + if id == target && alias != target then [alias] else []
  {
  }

  lemma OneMoreAlias(c: Config, done: set<string>, alias: string, id: string)
    requires alias in c.aliases
    ensures AliasesAmong(c, done + {alias}, id)
      == AliasesAmong(c, done, id) + if id == c.aliases[alias] && alias != id then {alias} else {}
  {
  }

  /** The aliases of every target, in whatever order the dictionary yields them. */
  method AliasesByModel(c: Config) returns (lists: map<string, seq<string>>)
    ensures GroupsAliases(c, c.aliases.Keys, lists)
  {
    hide GroupsAliases;
    lists := map[];
    NothingGrouped(c);
    var todo := c.aliases.Keys;
    ghost var done := {};
    while todo != {}
      invariant done !! todo && done + todo == c.aliases.Keys
      invariant GroupsAliases(c, done, lists)
      decreases |todo|
    {
      var alias :| alias in todo;
      var target := c.aliases[alias];
      todo := todo - {alias};
      GroupOne(c, done, lists, alias);
      if alias != target {
        lists := lists[target := Found(lists, target) + [alias]];
      }
      done := done + {alias};
    }
    assert done == c.aliases.Keys;
  }

  lemma SnocKeys(offers: seq<Offer>, o: Offer, id: string)
    ensures KeysOf(offers + [o], id) == KeysOf(offers, id) + if o.0 == id then [o.1] else []
  {
    assert (offers + [o])[..|offers|] == offers;
  }

  lemma SnocIds(offers: seq<Offer>, o: Offer)
    ensures var ids := OfferedIds(offers); OfferedIds(offers + [o]) == if o.0 in ids then ids else ids + [o.0]
  {
    assert (offers + [o])[..|offers|] == offers;
  }

  lemma SnocModels(c: Config, name: string, models: seq<string>, j: nat)
    requires j < |models|
    ensures OffersOf(c, name, models[..j + 1]) == OffersOf(c, name, models[..j]) + [(ResolveAlias(c, models[j]), name)]
  {
    assert models[..j + 1][..j] == models[..j];
  }

  lemma SnocProviders(c: Config, providers: seq<Provider>, i: nat)
    requires i < |providers|
    ensures Offers(c, providers[..i + 1])
      == Offers(c, providers[..i]) + OffersOf(c, providers[i].name, providers[i].models)
  {
    assert providers[..i + 1][..i] == providers[..i];
  }

  /** The insertion-ordered dictionary `keys`, with its keys in `ids`, holds the offers. */
  ghost predicate Holds(ids: seq<string>, keys: map<string, seq<string>>, offers: seq<Offer>) {
    && ids == OfferedIds(offers)
    && (forall id :: id in keys <==> id in ids)
    && (forall id :: Found(keys, id) == KeysOf(offers, id))
  }

  /** Filing one more offer under its model. */
  lemma HoldsOneMore(ids: seq<string>, keys: map<string, seq<string>>, offers: seq<Offer>, o: Offer)
    requires Holds(ids, keys, offers)
    ensures o.0 in keys ==> Holds(ids, keys[o.0 := keys[o.0] + [o.1]], offers + [o])
    ensures o.0 !in keys ==> Holds(ids + [o.0], keys[o.0 := [o.1]], offers + [o])
  {
    hide KeysOf, OfferedIds;
    SnocIds(offers, o);
    forall id ensures KeysOf(offers + [o], id) == KeysOf(offers, id) + if o.0 == id then [o.1] else [] {
      SnocKeys(offers, o, id);
    }
    if o.0 !in keys { assert Found(keys, o.0) + [o.1] == [o.1]; }
  }

  method AddOffers(c: Config, name: string, models: seq<string>, ids0: seq<string>, keys0: map<string, seq<string>>,
    ghost offers: seq<Offer>)
    returns (ids: seq<string>, keys: map<string, seq<string>>)
    requires Holds(ids0, keys0, offers)
    ensures Holds(ids, keys, offers + OffersOf(c, name, models))
  {
    hide ResolveAlias, Holds;
    ids, keys := ids0, keys0;
    assert offers + [] == offers;
    for j := 0 to |models|
      invariant Holds(ids, keys, offers + OffersOf(c, name, models[..j]))
    {
      ghost var seen := offers + OffersOf(c, name, models[..j]);
      var canonical := ResolveAlias(c, models[j]);
      SnocModels(c, name, models, j);
      assert offers + OffersOf(c, name, models[..j + 1]) == seen + [(canonical, name)];
      HoldsOneMore(ids, keys, seen, (canonical, name));
      if canonical in keys {
        keys := keys[canonical := keys[canonical] + [name]];
      } else {
        ids, keys := ids + [canonical], keys[canonical := [name]];
      }
    }
    assert models[..|models|] == models;
  }

  method ProviderKeysByModel(c: Config) returns (ids: seq<string>, keys: map<string, seq<string>>)
    ensures Holds(ids, keys, Offers(c, c.providers))
  {
    hide OffersOf;
    ids, keys := [], map[];
    for i := 0 to |c.providers|
      invariant Holds(ids, keys, Offers(c, c.providers[..i]))
    {
      hide Holds;
      SnocProviders(c, c.providers, i);
      ids, keys := AddOffers(c, c.providers[i].name, c.providers[i].models, ids, keys, Offers(c, c.providers[..i]));
    }
    assert c.providers[..|c.providers|] == c.providers;
  }

  method MakeEntry(ghost c: Config, about: Description, aliases: map<string, seq<string>>, keys: seq<string>)
    returns (e: Entry)
    requires GroupsAliases(c, c.aliases.Keys, aliases)
    ensures Describes(c, e, about, keys)
  {
    var found := Found(aliases, IdOf(about));
    SortedAndSame(found);
    return Entry(about, SortStrings(found), keys);
  }

  method ListModels(c: Config) returns (entries: seq<Entry>)
    ensures IsCatalog(c, entries)
  {
    hide Describes, GroupsAliases, KeysOf, OfferedIds, Offers, ModelEntry;
    var aliases := AliasesByModel(c);
    var ids, keys := ProviderKeysByModel(c);
    ghost var offers, n := Offers(c, c.providers), |c.models|;
    entries := [];
    for k := 0 to |c.models|
      invariant |entries| == k
      invariant forall i | 0 <= i < k ::
        Describes(c, entries[i], Configured(c.models[i]), KeysOf(offers, c.models[i].id))
    {
      var id := c.models[k].id;
      var e := MakeEntry(c, Configured(c.models[k]), aliases, Found(keys, id));
      entries := entries + [e];
    }
    ghost var rest := [];
    for k := 0 to |ids|
      invariant rest == Unlisted(c, ids[..k]) && |entries| == n + |rest|
      invariant forall i | 0 <= i < n ::
        Describes(c, entries[i], Configured(c.models[i]), KeysOf(offers, c.models[i].id))
      invariant forall i | n <= i < |entries| :: DescribesOffer(c, entries[i], offers, rest[i - n])
    {
      assert ids[..k + 1][..k] == ids[..k];
      if !IsConfigured(c, ids[k]) {
        var e := MakeEntry(c, DescriptionOf(c, ids[k], keys[ids[k]]), aliases, keys[ids[k]]);
        entries := entries + [e];
        rest := rest + [ids[k]];
      }
    }
    assert ids[..|ids|] == ids;
  }

  // ---- Which models the catalog lists ----

  /** A provider lists a name of the model. */
  predicate Served(c: Config, id: string) {
    exists p, m :: p in c.providers && m in p.models && ResolveAlias(c, m) == id
  }

  predicate Listed(entries: seq<Entry>, id: string) {
    exists e :: e in entries && IdOf(e.about) == id
  }

  function Ids(entries: seq<Entry>): seq<string> {
    seq(|entries|, i requires 0 <= i < |entries| => IdOf(entries[i].about))
  }

  lemma {:induction false} OfferedMember(offers: seq<Offer>, id: string)
    ensures id in OfferedIds(offers) <==> exists o :: o in offers && o.0 == id
    ensures Distinct(OfferedIds(offers))
  {
    if offers != [] {
      var init, last := offers[..|offers| - 1], offers[|offers| - 1];
      assert offers == init + [last];
      OfferedMember(init, id);
    }
  }

  lemma {:induction false} OffersOfMember(c: Config, name: string, models: seq<string>, o: Offer)
    ensures o in OffersOf(c, name, models) <==> o.1 == name && exists m :: m in models && ResolveAlias(c, m) == o.0
  {
    hide ResolveAlias;
    if models != [] {
      var init, last := models[..|models| - 1], models[|models| - 1];
      assert models == init + [last];
      OffersOfMember(c, name, init, o);
    }
  }

  lemma {:induction false} OffersMember(c: Config, providers: seq<Provider>, o: Offer)
    ensures o in Offers(c, providers) <==>
      exists p, m :: p in providers && p.name == o.1 && m in p.models && ResolveAlias(c, m) == o.0
  {
    hide ResolveAlias, OffersOf;
    if providers != [] {
      var init, last := providers[..|providers| - 1], providers[|providers| - 1];
      assert providers == init + [last];
      OffersMember(c, init, o);
      OffersOfMember(c, last.name, last.models, o);
    }
  }

  lemma OfferedIffServed(c: Config, id: string)
    ensures id in OfferedIds(Offers(c, c.providers)) <==> Served(c, id)
  {
    hide ResolveAlias, Offers, OfferedIds;
    var offers := Offers(c, c.providers);
    OfferedMember(offers, id);
    if o :| o in offers && o.0 == id {
      OffersMember(c, c.providers, o);
    }
    if p, m :| p in c.providers && m in p.models && ResolveAlias(c, m) == id {
      OffersMember(c, c.providers, (id, p.name));
    }
  }

  lemma {:induction false} UnlistedMember(c: Config, ids: seq<string>, id: string)
    ensures id in Unlisted(c, ids) <==> id in ids && !IsConfigured(c, id)
    ensures Distinct(ids) ==> Distinct(Unlisted(c, ids))
  {
    hide IsConfigured;
    if ids != [] {
      var init, last := ids[..|ids| - 1], ids[|ids| - 1];
      assert ids == init + [last];
      UnlistedMember(c, init, id);
      UnlistedMember(c, init, last);
    }
  }

  lemma EntryIsKnown(c: Config, entries: seq<Entry>, k: nat)
    requires IsCatalog(c, entries) && k < |entries|
    ensures var id := IdOf(entries[k].about);
      IsConfigured(c, id) || (Served(c, id) && !IsConfigured(c, ResolveAlias(c, id)))
  {
    hide Served, IsAliasList, KeysOf, OfferedIds, Offers, Unlisted;
    var n, ids := |c.models|, OfferedIds(Offers(c, c.providers));
    if k < n {
      assert c.models[k] in c.models;
    } else {
      var id := Unlisted(c, ids)[k - n];
      assert DescribesOffer(c, entries[k], Offers(c, c.providers), id);
      UnlistedMember(c, ids, id);
      OfferedIffServed(c, id);
    }
  }

  /** The entry of an offered model that the configuration does not list. */
  lemma OfferedEntry(c: Config, entries: seq<Entry>, id: string) returns (k: nat)
    requires IsCatalog(c, entries) && Served(c, id) && !IsConfigured(c, id)
    ensures |c.models| <= k < |entries| && DescribesOffer(c, entries[k], Offers(c, c.providers), id)
  {
    hide Served, IsAliasList, KeysOf, OfferedIds, Offers, Unlisted, DescribesOffer, Describes;
    var ids := OfferedIds(Offers(c, c.providers));
    var rest := Unlisted(c, ids);
    OfferedIffServed(c, id);
    UnlistedMember(c, ids, id);
    var i :| 0 <= i < |rest| && rest[i] == id;
    k := |c.models| + i;
    assert DescribesOffer(c, entries[k], Offers(c, c.providers), rest[k - |c.models|]);
  }

  /**
   The catalog lists the configured models, and the served ones that neither are configured nor stand for one
   that is.
   */
  lemma ListedMember(c: Config, entries: seq<Entry>, id: string)
    requires IsCatalog(c, entries)
    ensures Listed(entries, id) <==>
      IsConfigured(c, id) || (Served(c, id) && !IsConfigured(c, ResolveAlias(c, id)))
  {
    hide Served, IsAliasList, KeysOf, OfferedIds, Offers, Unlisted;
    if e :| e in entries && IdOf(e.about) == id {
      var k :| 0 <= k < |entries| && entries[k] == e;
      EntryIsKnown(c, entries, k);
    }
    if IsConfigured(c, id) {
      var k :| 0 <= k < |c.models| && c.models[k] == ModelEntry(c.models, id).value;
      assert entries[k] in entries;
    } else if Served(c, id) && !IsConfigured(c, ResolveAlias(c, id)) {
      var k := OfferedEntry(c, entries, id);
      assert entries[k] in entries;
    }
  }

  /** Offers come in the order of the providers, and of the models that each lists. */
  lemma {:induction false} OffersInOrder(c: Config, a: seq<Provider>, b: seq<Provider>)
    ensures Offers(c, a + b) == Offers(c, a) + Offers(c, b)
    ensures |b| == 1 ==>
      && |Offers(c, b)| == |b[0].models|
      && forall j | 0 <= j < |b[0].models| :: Offers(c, b)[j] == (ResolveAlias(c, b[0].models[j]), b[0].name)
  {
    hide ResolveAlias, OffersOf;
    if b == [] {
      assert a + b == a;
    } else {
      assert (a + b)[..|a + b| - 1] == a + b[..|b| - 1];
      OffersInOrder(c, a, b[..|b| - 1]);
      if |b| == 1 { OffersAt(c, b[0].name, b[0].models); }
    }
  }

  lemma {:induction false} OffersAt(c: Config, name: string, models: seq<string>)
    ensures |OffersOf(c, name, models)| == |models|
    ensures forall j | 0 <= j < |models| :: OffersOf(c, name, models)[j] == (ResolveAlias(c, models[j]), name)
  {
    hide ResolveAlias;
    if models != [] { OffersAt(c, name, models[..|models| - 1]); }
  }

  /** Offered models come in the order of their first offers. */
  lemma {:induction false} OfferedInOrder(offers: seq<Offer>, p: nat, q: nat)
    requires p < q < |OfferedIds(offers)|
    ensures var ids := OfferedIds(offers);
      exists i | 0 <= i < |offers| ::
        offers[i].0 == ids[p] && forall j | 0 <= j < |offers| && offers[j].0 == ids[q] :: i < j
  {
    var n := |offers| - 1;
    var init, earlier, ids := offers[..n], OfferedIds(offers[..n]), OfferedIds(offers);
    if q < |earlier| {
      OfferedInOrder(init, p, q);
      var i :| 0 <= i < |init| && init[i].0 == ids[p] && forall j | 0 <= j < |init| && init[j].0 == ids[q] :: i < j;
      assert offers[i].0 == ids[p];
      forall j | 0 <= j < |offers| && offers[j].0 == ids[q] ensures i < j {
        if j < n { assert init[j] == offers[j]; }
      }
    } else {
      OfferedMember(init, ids[p]);
      OfferedMember(init, ids[q]);
      var o :| o in init && o.0 == ids[p];
      var i :| 0 <= i < n && init[i] == o;
      assert offers[i].0 == ids[p];
      assert forall j | 0 <= j < n :: init[j] in init && init[j] == offers[j];
      assert forall j | 0 <= j < n :: offers[j].0 != ids[q];
    }
  }

  lemma {:induction false} UnlistedJoin(c: Config, a: seq<string>, b: seq<string>)
    ensures Unlisted(c, a + b) == Unlisted(c, a) + Unlisted(c, b)
  {
    hide IsConfigured;
    if b == [] {
      assert a + b == a;
    } else {
      assert (a + b)[..|a + b| - 1] == a + b[..|b| - 1];
      UnlistedJoin(c, a, b[..|b| - 1]);
    }
  }

  /**
   What each entry describes: in front the configured models in their order; behind them models that are
   served and not configured, as the configured model that one is an alias of, or else by its id and the
   first provider that serves it.
   */
  lemma EntryIsDescribed(c: Config, entries: seq<Entry>, k: nat)
    requires IsCatalog(c, entries) && k < |entries|
    ensures k < |c.models| ==> entries[k].about == Configured(c.models[k])
    ensures k >= |c.models| ==>
      exists id ::
        && Served(c, id) && (forall m | m in c.models :: m.id != id) && entries[k].providerKeys != []
        && match entries[k].about
           case Configured(m) => m in c.models && m.id == ResolveAlias(c, id)
           case Synthetic(model, primary) =>
             && model == id && primary == entries[k].providerKeys[0]
             && forall m | m in c.models :: m.id != ResolveAlias(c, id)
  {
    hide Served, IsAliasList, KeysOf, OfferedIds, Offers, Unlisted, ResolveAlias;
    if k >= |c.models| {
      var offers := Offers(c, c.providers);
      var ids := OfferedIds(offers);
      var id := Unlisted(c, ids)[k - |c.models|];
      assert DescribesOffer(c, entries[k], offers, id);
      UnlistedMember(c, ids, id);
      OfferedIffServed(c, id);
      OfferedMember(offers, id);
      var o :| o in offers && o.0 == id;
      KeysOfMember(offers, o);
    }
  }

  lemma {:induction false} KeysOfMember(offers: seq<Offer>, o: Offer)
    requires o in offers
    ensures o.1 in KeysOf(offers, o.0)
  {
    var init, last := offers[..|offers| - 1], offers[|offers| - 1];
    assert offers == init + [last];
    if o != last { KeysOfMember(init, o); }
  }

  predicate DistinctModels(c: Config) {
    forall i, j | 0 <= i < j < |c.models| :: c.models[i].id != c.models[j].id
  }

  /** No served model that is missing from the configuration is itself an alias of a configured one. */
  ghost predicate NoShadow(c: Config) {
    forall id | Served(c, id) && !IsConfigured(c, id) :: !IsConfigured(c, ResolveAlias(c, id))
  }

  lemma ShadowRepeats(c: Config, entries: seq<Entry>, id: string)
    requires IsCatalog(c, entries)
    requires Served(c, id) && !IsConfigured(c, id) && IsConfigured(c, ResolveAlias(c, id))
    ensures !Distinct(Ids(entries))
  {
    hide Served, IsAliasList, KeysOf, OfferedIds, Offers, Unlisted;
    var k := OfferedEntry(c, entries, id);
    var i :| 0 <= i < |c.models| && c.models[i] == ModelEntry(c.models, ResolveAlias(c, id)).value;
    assert Ids(entries)[i] == Ids(entries)[k];
  }

  /** One entry per model: exactly when the configured ids are distinct and no served model shadows a configured one. */
  lemma CatalogIsDistinct(c: Config, entries: seq<Entry>)
    requires IsCatalog(c, entries)
    ensures Distinct(Ids(entries)) <==> DistinctModels(c) && NoShadow(c)
  {
    hide Served, IsAliasList, KeysOf, OfferedIds, Offers, Unlisted, ResolveAlias, ModelEntry;
    var n, ids := |c.models|, OfferedIds(Offers(c, c.providers));
    var rest := Unlisted(c, ids);
    forall k | 0 <= k < n ensures Ids(entries)[k] == c.models[k].id && c.models[k] in c.models { }
    if id :| Served(c, id) && !IsConfigured(c, id) && IsConfigured(c, ResolveAlias(c, id)) {
      ShadowRepeats(c, entries, id);
    } else {
      forall k | n <= k < |entries| ensures Ids(entries)[k] == rest[k - n] && !IsConfigured(c, rest[k - n]) {
        assert DescribesOffer(c, entries[k], Offers(c, c.providers), rest[k - n]);
        UnlistedMember(c, ids, rest[k - n]);
        OfferedIffServed(c, rest[k - n]);
      }
      OfferedMember(Offers(c, c.providers), "");
      UnlistedMember(c, ids, "");
      if !DistinctModels(c) {
        var i, j :| 0 <= i < j < n && c.models[i].id == c.models[j].id;
        assert Ids(entries)[i] == Ids(entries)[j];
      }
    }
  }

  // ---- Looking a model up ----

  /** No entry of its id stands before this one. */
  predicate IsFirst(entries: seq<Entry>, e: Entry) {
    exists k | 0 <= k < |entries| ::
      entries[k] == e && forall i | 0 <= i < k :: IdOf(entries[i].about) != IdOf(e.about)
  }

  /** The first entry of a name's target; it succeeds exactly when the target is listed. */
  method GetModel(c: Config, name: string) returns (r: Option<Entry>)
    ensures r.Some? <==>
      var id := ResolveAlias(c, name); IsConfigured(c, id) || (Served(c, id) && !IsConfigured(c, ResolveAlias(c, id)))
    ensures r.Some? ==> IdOf(r.value.about) == ResolveAlias(c, name)
    ensures r.Some? ==> exists entries :: IsCatalog(c, entries) && IsFirst(entries, r.value)
  {
    hide IsCatalog, Served;
    var entries := ListModels(c);
    var canonical := ResolveAlias(c, name);
    ListedMember(c, entries, canonical);
    for k := 0 to |entries|
      invariant forall i | 0 <= i < k :: IdOf(entries[i].about) != canonical
    {
      if IdOf(entries[k].about) == canonical {
        return Some(entries[k]);
      }
    }
    return None;
  }

  lemma SetListed(xs: seq<string>, s: set<string>)
    requires multiset(xs) == multiset(s)
    ensures Distinct(xs) && forall x :: x in xs <==> x in s
  {
    forall x ensures x in xs <==> x in s {
      assert x in xs <==> x in multiset(xs);
    }
    forall i, j | 0 <= i < j < |xs| ensures xs[i] != xs[j] {
      assert xs == xs[..j] + [xs[j]] + xs[j + 1..];
      assert xs[i] in xs[..j];
      assert multiset(xs)[xs[j]] == multiset(xs[..j])[xs[j]] + 1 + multiset(xs[j + 1..])[xs[j]];
    }
  }

  lemma OnlyEntry(entries: seq<Entry>, k: nat)
    requires k < |entries|
    ensures Distinct(Ids(entries)) ==>
      forall j | 0 <= j < |entries| :: IdOf(entries[j].about) == IdOf(entries[k].about) <==> j == k
  {
    forall j | 0 <= j < |entries| ensures Ids(entries)[j] == IdOf(entries[j].about) { }
  }

  /** An alias is listed under an entry exactly when it maps there, and so it finds that entry and no other. */
  lemma AliasFindsEntry(c: Config, entries: seq<Entry>, k: nat, alias: string)
    requires IsCatalog(c, entries) && k < |entries|
    ensures var id := IdOf(entries[k].about);
      && (alias in entries[k].aliases <==> alias in c.aliases && c.aliases[alias] == id && alias != id)
      && Distinct(entries[k].aliases)
    ensures Distinct(Ids(entries)) && alias in entries[k].aliases ==>
      forall j | 0 <= j < |entries| :: IdOf(entries[j].about) == ResolveAlias(c, alias) <==> j == k
  {
    var e := entries[k];
    assert IsAliasList(c, IdOf(e.about), e.aliases) by {
      var offers, n := Offers(c, c.providers), |c.models|;
      if k >= n {
        assert DescribesOffer(c, e, offers, Unlisted(c, OfferedIds(offers))[k - n]);
      }
    }
    hide IsCatalog, Sorted, Distinct;
    SetListed(e.aliases, AliasesAmong(c, c.aliases.Keys, IdOf(e.about)));
    OnlyEntry(entries, k);
  }

  // ---- The providers of an entry ----

  /** Providers list their models by canonical name, each once. */
  predicate ListsCanonical(c: Config) {
    forall p | p in c.providers :: Distinct(p.models) && forall m | m in p.models :: ResolveAlias(c, m) == m
  }

  lemma {:induction false} KeysOfAppend(a: seq<Offer>, b: seq<Offer>, id: string)
    ensures KeysOf(a + b, id) == KeysOf(a, id) + KeysOf(b, id)
  {
    if b == [] {
      assert a + b == a;
    } else {
      KeysOfAppend(a, b[..|b| - 1], id);
      assert a + b == (a + b[..|b| - 1]) + [b[|b| - 1]];
      SnocKeys(a + b[..|b| - 1], b[|b| - 1], id);
    }
  }

  lemma {:induction false} KeysOfProvider(c: Config, name: string, models: seq<string>, id: string)
    requires Distinct(models) && forall m | m in models :: ResolveAlias(c, m) == m
    ensures KeysOf(OffersOf(c, name, models), id) == if id in models then [name] else []
  {
    hide ResolveAlias;
    if models != [] {
      var init, last := models[..|models| - 1], models[|models| - 1];
      assert models == init + [last];
      KeysOfProvider(c, name, init, id);
      SnocKeys(OffersOf(c, name, init), (last, name), id);
    }
  }

  lemma {:induction false} KeysAreListing(c: Config, providers: seq<Provider>, id: string)
    requires forall p | p in providers :: Distinct(p.models) && forall m | m in p.models :: ResolveAlias(c, m) == m
    ensures KeysOf(Offers(c, providers), id) == Listing(providers, id)
  {
    hide ResolveAlias, OffersOf, Distinct;
    if providers != [] {
      var init, last := providers[..|providers| - 1], providers[|providers| - 1];
      assert providers == init + [last];
      KeysAreListing(c, init, id);
      KeysOfProvider(c, last.name, last.models, id);
      KeysOfAppend(Offers(c, init), OffersOf(c, last.name, last.models), id);
    }
  }

  /** The keys of an entry are the offers of its own id. */
  lemma EntryKeys(c: Config, entries: seq<Entry>, k: nat)
    requires IsCatalog(c, entries) && NoShadow(c) && k < |entries|
    ensures entries[k].providerKeys == KeysOf(Offers(c, c.providers), IdOf(entries[k].about))
    ensures k >= |c.models| ==> Served(c, IdOf(entries[k].about))
  {
    hide Served, IsAliasList, KeysOf, OfferedIds, Offers, Unlisted;
    var n, offers := |c.models|, Offers(c, c.providers);
    var rest := Unlisted(c, OfferedIds(offers));
    if k >= n {
      assert DescribesOffer(c, entries[k], offers, rest[k - n]);
      UnlistedMember(c, OfferedIds(offers), rest[k - n]);
      OfferedIffServed(c, rest[k - n]);
    }
  }

  lemma ServedIsCanonical(c: Config, id: string)
    requires ListsCanonical(c) && Served(c, id)
    ensures ResolveAlias(c, id) == id
  {
  }

  lemma CanonicalHasNoShadow(c: Config)
    requires ListsCanonical(c)
    ensures NoShadow(c)
  {
    hide Served, ResolveAlias, ListsCanonical;
    forall id | Served(c, id) && !IsConfigured(c, id) ensures !IsConfigured(c, ResolveAlias(c, id)) {
      ServedIsCanonical(c, id);
    }
  }

  /**
   An entry's providers are those that the router would look up for it, exactly when the entry's id is
   canonical or no provider serves what it is an alias of.
   */
  lemma KeysAgree(c: Config, entries: seq<Entry>, k: nat)
    requires IsCatalog(c, entries) && ListsCanonical(c) && k < |entries|
    ensures var id := IdOf(entries[k].about);
      entries[k].providerKeys == ProvidersForModel(c, id) <==>
        ResolveAlias(c, id) == id || forall p | p in c.providers :: ResolveAlias(c, id) !in p.models
  {
    hide IsCatalog, Served, Offers, KeysOf;
    var id := IdOf(entries[k].about);
    CanonicalHasNoShadow(c);
    EntryKeys(c, entries, k);
    KeysAreListing(c, c.providers, id);
    NobodyLists(c, ResolveAlias(c, id));
    if ResolveAlias(c, id) != id {
      NobodyLists(c, id);
      forall p | p in c.providers ensures id !in p.models { }
    }
  }

  lemma {:induction false} NobodyLists(c: Config, id: string)
    ensures Listing(c.providers, id) == [] <==> forall p | p in c.providers :: id !in p.models
  {
    forall name ensures name in Listing(c.providers, id) <==>
      exists p :: p in c.providers && p.name == name && id in p.models
    {
      ListingMember(c.providers, id, name);
    }
    if p :| p in c.providers && id in p.models {
      assert p.name in Listing(c.providers, id);
    } else if Listing(c.providers, id) != [] {
      assert Listing(c.providers, id)[0] in Listing(c.providers, id);
    }
  }

  /**
   Failover tries an entry's providers in the entry's own order, and refuses a model whose entry has none,
   exactly when the entry's id is canonical or no provider serves what it is an alias of.
   */
  lemma FailoverFollowsCatalog(
    c: Config, entries: seq<Entry>, k: nat, name: string, counters: map<string, nat>, ewma: map<string, real>)
    requires IsCatalog(c, entries) && ListsCanonical(c) && k < |entries|
    requires ResolveAlias(c, name) == IdOf(entries[k].about) && StrategyFor(c, name) == Failover
    ensures var id, keys := IdOf(entries[k].about), entries[k].providerKeys;
      (Router.Candidates(c, counters, ewma, name) == if keys == [] then None else Some(Router.Paired(keys, id)))
      <==> (ResolveAlias(c, id) == id || forall p | p in c.providers :: ResolveAlias(c, id) !in p.models)
  {
    hide IsCatalog, ListsCanonical, StrategyFor, Listing, Router.SortStable, Router.Paired;
    KeysAgree(c, entries, k);
    PairedDetermines(entries[k].providerKeys, ProvidersForModel(c, ResolveAlias(c, name)), ResolveAlias(c, name));
  }

  lemma PairedDetermines(a: seq<string>, b: seq<string>, id: string)
    ensures Router.Paired(a, id) == Router.Paired(b, id) <==> a == b
  {
    if Router.Paired(a, id) == Router.Paired(b, id) {
      forall i | 0 <= i < |a| ensures a[i] == b[i] {
        assert Router.Paired(a, id)[i] == (a[i], id) && Router.Paired(b, id)[i] == (b[i], id);
      }
    }
  }

  // ---- Listing the aliases ----

  method SortedNames(c: Config) returns (names: seq<string>)
    ensures Sorted(names) && Distinct(names) && forall a :: a in names <==> a in c.aliases
  {
    hide Sorted, Distinct;
    names := [];
    var todo := c.aliases.Keys;
    while todo != {}
      invariant todo <= c.aliases.Keys && multiset(names) == multiset(c.aliases.Keys - todo)
      decreases |todo|
    {
      var a :| a in todo;
      assert c.aliases.Keys - (todo - {a}) == (c.aliases.Keys - todo) + {a};
      todo := todo - {a};
      names := names + [a];
    }
    assert c.aliases.Keys - todo == c.aliases.Keys;
    SortedAndSame(names);
    names := SortStrings(names);
    SetListed(names, c.aliases.Keys);
  }

  /** The alias pairs in the order of their names. */
  method ListAliases(c: Config) returns (pairs: seq<(string, string)>)
    ensures forall i, j | 0 <= i < j < |pairs| :: StrLe(pairs[i].0, pairs[j].0) && pairs[i].0 != pairs[j].0
    ensures forall a, t :: (a, t) in pairs <==> a in c.aliases && c.aliases[a] == t && a != t
  {
    hide StrLe;
    var names := SortedNames(c);
    pairs := [];
    for i := 0 to |names|
      invariant forall j, k | 0 <= j < |pairs| && i <= k < |names| ::
        StrLe(pairs[j].0, names[k]) && pairs[j].0 != names[k]
      invariant forall j, k | 0 <= j < k < |pairs| :: StrLe(pairs[j].0, pairs[k].0) && pairs[j].0 != pairs[k].0
      invariant forall p | p in pairs :: p.0 in c.aliases && c.aliases[p.0] == p.1 && p.0 != p.1
      invariant forall j | 0 <= j < i && c.aliases[names[j]] != names[j] :: (names[j], c.aliases[names[j]]) in pairs
    {
      var a := names[i];
      if a != c.aliases[a] {
        pairs := pairs + [(a, c.aliases[a])];
      }
    }
    forall a | a in c.aliases && c.aliases[a] != a ensures (a, c.aliases[a]) in pairs {
      assert a in names;
    }
  }
}
