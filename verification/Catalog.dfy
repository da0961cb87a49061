// The model catalogue of ProviderRegistry: its construction from the provider
// configurations, the capability predicates and the automatic ranking.
module Catalog {
  import opened Wrappers

  const AUTO_MODEL_ID := "auto"

  datatype Capability = Chat | Responses | Tools | Streaming | Reasoning | StructuredOutputs | ImageGeneration

  datatype RequestKind = ChatCompletions | ResponsesApi | ImagesGenerations | OtherKind

  // What routing reads of a request.
  datatype Request = Request(kind: RequestKind, requiresTools: bool, replaySafe: bool)

  datatype ModelConfig = ModelConfig(
    id: string, fallbackModels: seq<string>, capabilities: set<Capability>, manualOnly: bool, autoEligible: bool)

  datatype ProviderConfig = ProviderConfig(id: string, models: seq<ModelConfig>)

  datatype Binding = Binding(
    modelId: string, providerId: string, fallbackModelIds: seq<string>, capabilities: set<Capability>,
    autoEligible: bool, manualOnly: bool, routingIndex: int)

  // The models of the registry: a JavaScript Map, that is a map together with
  // its values in insertion order.
  datatype Catalog = Catalog(models: map<string, Binding>, bindings: seq<Binding>) {
    ghost predicate Valid() {
      && (forall i, j :: 0 <= i < j < |bindings| ==> bindings[i].modelId != bindings[j].modelId)
      && (forall b :: b in bindings ==> b.modelId in models && models[b.modelId] == b)
      && (forall id :: id in models ==> models[id] in bindings && models[id].modelId == id)
      && AUTO_MODEL_ID !in models
    }
  }

  // ---- capability predicates ----

  function RequiredCapability(request: Request): Option<Capability> {
    match request.kind
    case ImagesGenerations => Some(ImageGeneration)
    case ChatCompletions => Some(Chat)
    case ResponsesApi => Some(Responses)
    case OtherKind => None
  }

  // The test a model must pass before it may become the next model.
  predicate SupportsRequest(binding: Binding, request: Request) {
    if request.kind == ImagesGenerations then ImageGeneration in binding.capabilities
    else
      && (request.requiresTools ==> Tools in binding.capabilities)
      && (RequiredCapability(request).Some? ==> RequiredCapability(request).value in binding.capabilities)
  }

  // Both tests ask for the capability of the kind of request, and for tools if the request
  // needs them; only the routing test does not ask for tools on image requests.
  lemma CapabilitiesDecide(binding: Binding, request: Request)
    ensures PassesDispatchCheck(binding, request) <==>
      && (request.kind == ChatCompletions ==> Chat in binding.capabilities)
      && (request.kind == ResponsesApi ==> Responses in binding.capabilities)
      && (request.kind == ImagesGenerations ==> ImageGeneration in binding.capabilities)
      && (request.requiresTools ==> Tools in binding.capabilities)
    ensures SupportsRequest(binding, request) <==>
      || PassesDispatchCheck(binding, request)
      || (request.kind == ImagesGenerations && ImageGeneration in binding.capabilities)
  {
  }

  // The test made right before a buffered dispatch; unlike SupportsRequest it
  // also asks for tools on image requests.
  predicate PassesDispatchCheck(binding: Binding, request: Request) {
    && (RequiredCapability(request).Some? ==> RequiredCapability(request).value in binding.capabilities)
    && (request.requiresTools ==> Tools in binding.capabilities)
  }

  // ---- construction ----

  datatype CreateError = DuplicateProvider(id: string) | ReservedModelId | DuplicateModel(id: string) | NoProviders

  datatype Entry = Entry(providerId: string, config: ModelConfig)

  function Tag(providerId: string, models: seq<ModelConfig>): seq<Entry> {
    seq(|models|, i requires 0 <= i < |models| => Entry(providerId, models[i]))
  }

  // All configured models in configuration order.
  function Flatten(configs: seq<ProviderConfig>): seq<Entry> {
    if configs == [] then []
    else
      var last := configs[|configs| - 1];
      Flatten(configs[..|configs| - 1]) + Tag(last.id, last.models)
  }

  function RoutedCount(entries: seq<Entry>): nat {
    if entries == [] then 0
    else RoutedCount(entries[..|entries| - 1]) + if entries[|entries| - 1].config.manualOnly then 0 else 1
  }

  function Bind(entry: Entry, nextIndex: nat): Binding {
    Binding(
      entry.config.id, entry.providerId, entry.config.fallbackModels, entry.config.capabilities,
      !entry.config.manualOnly && entry.config.autoEligible,
      entry.config.manualOnly,
      if entry.config.manualOnly then -1 else nextIndex)
  }

  // What the registry keeps of a configured model.
  ghost predicate Describes(b: Binding, entry: Entry) {
    && b.modelId == entry.config.id && b.providerId == entry.providerId
    && b.fallbackModelIds == entry.config.fallbackModels && b.capabilities == entry.config.capabilities
    && b.manualOnly == entry.config.manualOnly
    && (b.autoEligible <==> entry.config.autoEligible && !entry.config.manualOnly)
    && (b.routingIndex < 0 <==> entry.config.manualOnly)
  }

  // The bindings a configuration must produce: manual-only models take no routing index.
  function BindAll(entries: seq<Entry>): (r: seq<Binding>)
    ensures |r| == |entries|
    ensures forall i :: 0 <= i < |r| ==> r[i].modelId == entries[i].config.id
    ensures forall i :: 0 <= i < |r| ==> Describes(r[i], entries[i])
    ensures forall i :: 0 <= i < |r| && !entries[i].config.manualOnly ==> r[i].routingIndex < RoutedCount(entries)
  {
    if entries == [] then []
    else
      var front := entries[..|entries| - 1];
      BindAll(front) + [Bind(entries[|entries| - 1], RoutedCount(front))]
  }

  ghost predicate DistinctProviders(configs: seq<ProviderConfig>) {
    forall i, j :: 0 <= i < j < |configs| ==> configs[i].id != configs[j].id
  }

  ghost predicate DistinctModels(entries: seq<Entry>) {
    forall i, j :: 0 <= i < j < |entries| ==> entries[i].config.id != entries[j].config.id
  }

  ghost predicate NoReserved(entries: seq<Entry>) {
    forall i :: 0 <= i < |entries| ==> entries[i].config.id != AUTO_MODEL_ID
  }

  ghost predicate WellFormed(configs: seq<ProviderConfig>) {
    configs != [] && DistinctProviders(configs) && DistinctModels(Flatten(configs)) && NoReserved(Flatten(configs))
  }

  lemma {:induction false} FlattenPrefix(configs: seq<ProviderConfig>, n: nat)
    requires n <= |configs|
    ensures Flatten(configs[..n]) <= Flatten(configs)
  {
    if n == |configs| {
      assert configs[..n] == configs;
    } else {
      FlattenPrefix(configs[..|configs| - 1], n);
      assert configs[..|configs| - 1][..n] == configs[..n];
    }
  }

  // The reason a configuration is refused, with its witness.
  ghost predicate Explains(error: CreateError, configs: seq<ProviderConfig>) {
    match error
    case NoProviders => configs == []
    case DuplicateProvider(id) => exists i, j :: 0 <= i < j < |configs| && configs[i].id == configs[j].id == id
    case ReservedModelId => !NoReserved(Flatten(configs))
    case DuplicateModel(id) =>
      var all := Flatten(configs);
      exists i, j :: 0 <= i < j < |all| && all[i].config.id == all[j].config.id == id
  }

  // The entries read once the first n providers and k models of the next one are done.
  ghost function Read(configs: seq<ProviderConfig>, n: nat, k: nat): seq<Entry>
    requires n < |configs| && k <= |configs[n].models|
  {
    Flatten(configs[..n]) + Tag(configs[n].id, configs[n].models[..k])
  }

  lemma ReadStep(configs: seq<ProviderConfig>, n: nat, k: nat)
    requires n < |configs| && k <= |configs[n].models|
    ensures Read(configs, n, k) <= Flatten(configs)
    ensures k == 0 ==> Read(configs, n, k) == Flatten(configs[..n])
    ensures k < |configs[n].models| ==>
      Read(configs, n, k + 1) == Read(configs, n, k) + [Entry(configs[n].id, configs[n].models[k])]
    ensures k == |configs[n].models| ==> Read(configs, n, k) == Flatten(configs[..n + 1])
  {
    assert configs[..n + 1][..n] == configs[..n];
    assert configs[n].models[..|configs[n].models|] == configs[n].models;
    FlattenPrefix(configs, n + 1);
    assert Read(configs, n, k) <= Flatten(configs[..n + 1]);
  }

  method Create(configs: seq<ProviderConfig>) returns (r: Result<Catalog, CreateError>)
    ensures r.Success? <==> WellFormed(configs)
    ensures r.Success? ==> r.value.Valid() && r.value.bindings == BindAll(Flatten(configs))
    ensures r.Failure? ==> Explains(r.error, configs)
  {
    var providers: seq<string> := [];  // the keys of the provider Map
    var catalog, routingIndex := Catalog(map[], []), 0;
    for n := 0 to |configs|
      invariant |providers| == n && forall i :: 0 <= i < n ==> providers[i] == configs[i].id
      invariant forall i, j :: 0 <= i < j < n ==> configs[i].id != configs[j].id
      invariant Built(catalog, routingIndex, Flatten(configs[..n]))
    {
      if configs[n].id in providers {
        return Failure(DuplicateProvider(configs[n].id));
      }
      providers := providers + [configs[n].id];
      var error;
      catalog, routingIndex, error := RegisterModels(configs, n, catalog, routingIndex);
      if error.Some? {
        return Failure(error.value);
      }
    }
    assert configs[..|configs|] == configs;
    if providers == [] {
      return Failure(NoProviders);
    }
    BuiltIsWellFormed(catalog, routingIndex, Flatten(configs));
    r := Success(catalog);
  }

  // The inner loop of Create: the models of one provider.
  method RegisterModels(configs: seq<ProviderConfig>, n: nat, before: Catalog, firstIndex: nat)
    returns (catalog: Catalog, routingIndex: nat, error: Option<CreateError>)
    requires n < |configs| && Built(before, firstIndex, Flatten(configs[..n]))
    ensures error.None? ==> Built(catalog, routingIndex, Flatten(configs[..n + 1]))
    ensures error.Some? ==> (error.value.ReservedModelId? || error.value.DuplicateModel?)
    ensures error.Some? ==> Explains(error.value, configs) && !WellFormed(configs)
  {
    catalog, routingIndex, error := before, firstIndex, None;
    var config := configs[n];
    ReadStep(configs, n, 0);
    for k := 0 to |config.models|
      invariant Built(catalog, routingIndex, Read(configs, n, k))
    {
      var model := config.models[k];
      ReadStep(configs, n, k);
      ReadStep(configs, n, k + 1);
      ghost var read, entry := Read(configs, n, k), Entry(config.id, model);
      if model.id == AUTO_MODEL_ID {
        Refused(read, entry, Flatten(configs));
        return catalog, routingIndex, Some(ReservedModelId);
      }
      if model.id in catalog.models {
        Clash(catalog, routingIndex, read, entry, Flatten(configs));
        return catalog, routingIndex, Some(DuplicateModel(model.id));
      }
      BuiltStep(catalog, routingIndex, read, entry);
      catalog := Add(catalog, Bind(Entry(config.id, model), routingIndex));
      routingIndex := routingIndex + if model.manualOnly then 0 else 1;
    }
    ReadStep(configs, n, |config.models|);
  }

  // The registry state after reading some entries.
  ghost predicate Built(catalog: Catalog, routingIndex: nat, entries: seq<Entry>) {
    && catalog.Valid()
    && catalog.bindings == BindAll(entries)
    && routingIndex == RoutedCount(entries)
  }

  function Add(catalog: Catalog, binding: Binding): Catalog {
    Catalog(catalog.models[binding.modelId := binding], catalog.bindings + [binding])
  }

  lemma AddKeepsValid(catalog: Catalog, binding: Binding)
    requires catalog.Valid() && binding.modelId !in catalog.models && binding.modelId != AUTO_MODEL_ID
    ensures Add(catalog, binding).Valid()
  {
    var after := Add(catalog, binding);
    forall b | b in after.bindings ensures b.modelId in after.models && after.models[b.modelId] == b {
      assert b in catalog.bindings || b == binding;
    }
    forall i | 0 <= i < |catalog.bindings| ensures catalog.bindings[i].modelId != binding.modelId {
      assert catalog.bindings[i] in catalog.bindings;
    }
    assert after.bindings[|catalog.bindings|] == binding;
    forall id | id in catalog.models ensures catalog.models[id] in after.bindings {
    }
  }

  lemma BuiltStep(catalog: Catalog, routingIndex: nat, entries: seq<Entry>, entry: Entry)
    requires Built(catalog, routingIndex, entries)
    requires entry.config.id !in catalog.models && entry.config.id != AUTO_MODEL_ID
    ensures Built(Add(catalog, Bind(entry, routingIndex)),
                  routingIndex + if entry.config.manualOnly then 0 else 1, entries + [entry])
  {
    var all := entries + [entry];
    assert all[..|all| - 1] == entries;
    AddKeepsValid(catalog, Bind(entry, routingIndex));
  }

  lemma BuiltIsWellFormed(catalog: Catalog, routingIndex: nat, entries: seq<Entry>)
    requires Built(catalog, routingIndex, entries)
    ensures DistinctModels(entries) && NoReserved(entries)
  {
    forall i | 0 <= i < |entries| ensures entries[i].config.id in catalog.models {
      assert catalog.bindings[i] in catalog.bindings;
    }
  }

  lemma Refused(read: seq<Entry>, entry: Entry, all: seq<Entry>)
    requires read + [entry] <= all && entry.config.id == AUTO_MODEL_ID
    ensures !NoReserved(all)
  {
    assert all[|read|] == entry;
  }

  lemma Clash(catalog: Catalog, routingIndex: nat, read: seq<Entry>, entry: Entry, all: seq<Entry>)
    requires Built(catalog, routingIndex, read) && read + [entry] <= all && entry.config.id in catalog.models
    ensures exists i, j :: 0 <= i < j < |all| && all[i].config.id == all[j].config.id == entry.config.id
  {
    var i :| 0 <= i < |catalog.bindings| && catalog.bindings[i] == catalog.models[entry.config.id];
    assert all[i] == read[i] && all[|read|] == entry;
  }
}
