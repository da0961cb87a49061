// Automatic ranking: candidates in catalogue order, scored, then sorted by
// descending score with the routing index as tie-break.  Model quality (health,
// benchmark and name terms) is an abstract function of the binding.
module Ranking {
  import opened Catalog

  datatype Candidate = Candidate(binding: Binding, score: real)

  predicate Before(a: Candidate, b: Candidate) {
    a.score > b.score || (a.score == b.score && a.binding.routingIndex < b.binding.routingIndex)
  }

  ghost predicate Ordered(r: seq<Candidate>) {
    forall i, j :: 0 <= i < j < |r| ==> Before(r[i], r[j])
  }

  function Score(binding: Binding, quality: Binding -> real): real {
    100.0 - binding.routingIndex as real * 0.01 + quality(binding)
  }

  predicate IsCandidate(binding: Binding, request: Request) {
    binding.autoEligible && SupportsRequest(binding, request)
  }

  function Candidates(bindings: seq<Binding>, request: Request, quality: Binding -> real): (r: seq<Candidate>)
    ensures forall c :: c in r <==>
      c.binding in bindings && IsCandidate(c.binding, request) && c.score == Score(c.binding, quality)
  {
    if bindings == [] then []
    else
      var n := |bindings| - 1;
      Candidates(bindings[..n], request, quality) +
      if IsCandidate(bindings[n], request) then [Candidate(bindings[n], Score(bindings[n], quality))] else []
  }

  // Array.prototype.sort with the comparator; SortedUniquely shows that no other
  // result is possible on a list whose routing indices are distinct.
  function Insert(c: Candidate, r: seq<Candidate>): (s: seq<Candidate>)
    ensures multiset(s) == multiset(r) + multiset{c}
  {
    if r == [] || Before(c, r[0]) then [c] + r
    else
      assert r == [r[0]] + r[1..];
      [r[0]] + Insert(c, r[1..])
  }

  function Sort(candidates: seq<Candidate>): (s: seq<Candidate>)
    ensures multiset(s) == multiset(candidates)
  {
    if candidates == [] then []
    else
      var n := |candidates| - 1;
      assert candidates == candidates[..n] + [candidates[n]];
      Insert(candidates[n], Sort(candidates[..n]))
  }

  ghost predicate DistinctIndices(candidates: seq<Candidate>) {
    forall i, j :: 0 <= i < j < |candidates| ==>
      candidates[i].binding.routingIndex != candidates[j].binding.routingIndex
  }

  lemma {:induction false} InsertOrders(c: Candidate, r: seq<Candidate>)
    requires Ordered(r)
    requires forall i :: 0 <= i < |r| ==> r[i].binding.routingIndex != c.binding.routingIndex
    ensures Ordered(Insert(c, r))
  {
    if r != [] && !Before(c, r[0]) {
      InsertOrders(c, r[1..]);
      var t := Insert(c, r[1..]);
      forall i | 0 <= i < |t| ensures Before(r[0], t[i]) {
        assert t[i] in multiset(t);
        assert t[i] == c || t[i] in r[1..];
      }
    }
  }

  lemma {:induction false} SortOrders(candidates: seq<Candidate>)
    requires DistinctIndices(candidates)
    ensures Ordered(Sort(candidates))
  {
    if candidates != [] {
      var n := |candidates| - 1;
      SortOrders(candidates[..n]);
      var s := Sort(candidates[..n]);
      forall i | 0 <= i < |s| ensures s[i].binding.routingIndex != candidates[n].binding.routingIndex {
        assert s[i] in multiset(s);
        assert s[i] in candidates[..n];
      }
      InsertOrders(candidates[n], s);
    }
  }

  lemma HeadIsLeast(r: seq<Candidate>, c: Candidate)
    requires Ordered(r) && c in multiset(r)
    ensures c == r[0] || Before(r[0], c)
  {
    var i :| 0 <= i < |r| && r[i] == c;
  }

  lemma TailMultiset(r: seq<Candidate>)
    requires r != []
    ensures multiset(r[1..]) == multiset(r) - multiset{r[0]}
  {
    assert r == [r[0]] + r[1..];
  }

  lemma HeadsAgree(r: seq<Candidate>, s: seq<Candidate>)
    requires Ordered(r) && Ordered(s) && multiset(r) == multiset(s) && r != [] && s != []
    ensures r[0] == s[0]
  {
    assert r[0] in multiset(r) && s[0] in multiset(s);
    HeadIsLeast(r, s[0]);
    HeadIsLeast(s, r[0]);
  }

  // The comparator is a strict total order on candidates with distinct indices,
  // so the sorted list is determined by its elements alone.
  lemma {:induction false} SortedUniquely(r: seq<Candidate>, s: seq<Candidate>)
    requires Ordered(r) && Ordered(s) && multiset(r) == multiset(s)
    ensures r == s
    decreases |r|
  {
    assert |r| == |multiset(r)| == |multiset(s)| == |s|;
    if r != [] {
      HeadsAgree(r, s);
      TailMultiset(r);
      TailMultiset(s);
      SortedUniquely(r[1..], s[1..]);
      assert r == [r[0]] + r[1..] && s == [s[0]] + s[1..];
    }
  }

  // What rankAutoCandidatesWithProfile promises: every eligible model that can
  // serve the request, best score first, routing index breaking ties.
  ghost predicate IsRanking(r: seq<Candidate>, bindings: seq<Binding>, request: Request, quality: Binding -> real) {
    Ordered(r) && multiset(r) == multiset(Candidates(bindings, request, quality))
  }

  method RankAutoCandidates(catalog: Catalog, request: Request, quality: Binding -> real) returns (r: seq<Candidate>)
    requires DistinctIndices(Candidates(catalog.bindings, request, quality))
    ensures IsRanking(r, catalog.bindings, request, quality)
    ensures r == Sort(Candidates(catalog.bindings, request, quality))
    ensures BestFirst(r) && ScoresEligible(r, catalog.bindings, request, quality)
  {
    var candidates: seq<Candidate> := [];
    for i := 0 to |catalog.bindings|
      invariant candidates == Candidates(catalog.bindings[..i], request, quality)
    {
      var binding := catalog.bindings[i];
      assert catalog.bindings[..i + 1][..i] == catalog.bindings[..i];
      if IsCandidate(binding, request) {
        candidates := candidates + [Candidate(binding, Score(binding, quality))];
      }
    }
    assert catalog.bindings[..|catalog.bindings|] == catalog.bindings;
    SortOrders(candidates);
    r := Sort(candidates);
    RankingTold(catalog.bindings, request, quality);
  }

  // The higher score comes first, and of equal ones the model registered earlier.
  ghost predicate BestFirst(r: seq<Candidate>) {
    forall i, j :: 0 <= i < j < |r| ==>
      r[j].score < r[i].score || (r[j].score == r[i].score && r[j].binding.routingIndex > r[i].binding.routingIndex)
  }

  // Exactly the automatic models that can serve the request, with their scores.
  ghost predicate ScoresEligible(
    r: seq<Candidate>, bindings: seq<Binding>, request: Request, quality: Binding -> real)
  {
    forall c :: c in r <==>
      && c.binding in bindings && c.binding.autoEligible && SupportsRequest(c.binding, request)
      && c.score == quality(c.binding) + 100.0 - c.binding.routingIndex as real / 100.0
  }

  lemma RankingTold(bindings: seq<Binding>, request: Request, quality: Binding -> real)
    requires DistinctIndices(Candidates(bindings, request, quality))
    ensures
      var r := Sort(Candidates(bindings, request, quality));
      BestFirst(r) && ScoresEligible(r, bindings, request, quality)
  {
    hide SupportsRequest, Sort, Score;
    var candidates := Candidates(bindings, request, quality);
    var r := Sort(candidates);
    SortOrders(candidates);
    ScoreTold(quality);
    SameMembers(r, candidates);
  }

  lemma ScoreTold(quality: Binding -> real)
    ensures forall b: Binding :: Score(b, quality) == quality(b) + 100.0 - b.routingIndex as real / 100.0
  {
  }

  lemma SameMembers(r: seq<Candidate>, s: seq<Candidate>)
    requires multiset(r) == multiset(s)
    ensures forall c :: c in r <==> c in s
  {
    forall c ensures c in r <==> c in s {
      assert c in r <==> c in multiset(r);
      assert c in s <==> c in multiset(s);
    }
  }

  // ---- routing indices ----

  lemma {:induction false} IndicesIncrease(entries: seq<Entry>)
    ensures forall i :: 0 <= i < |entries| && !entries[i].config.manualOnly ==>
      0 <= BindAll(entries)[i].routingIndex < RoutedCount(entries)
    ensures forall i, j :: 0 <= i < j < |entries| && !entries[i].config.manualOnly && !entries[j].config.manualOnly ==>
      BindAll(entries)[i].routingIndex < BindAll(entries)[j].routingIndex
  {
    if entries != [] {
      IndicesIncrease(entries[..|entries| - 1]);
    }
  }

  lemma {:induction false} BoundFlags(entries: seq<Entry>)
    ensures forall i :: 0 <= i < |entries| ==> BindAll(entries)[i].manualOnly == entries[i].config.manualOnly
    ensures forall i :: 0 <= i < |entries| ==> (BindAll(entries)[i].autoEligible ==> !entries[i].config.manualOnly)
  {
    if entries != [] {
      BoundFlags(entries[..|entries| - 1]);
    }
  }

  ghost predicate EligibleIndicesDistinct(bindings: seq<Binding>) {
    forall i, j :: 0 <= i < j < |bindings| && bindings[i].autoEligible && bindings[j].autoEligible ==>
      bindings[i].routingIndex != bindings[j].routingIndex
  }

  lemma {:induction false} CandidateIndicesDistinct(bindings: seq<Binding>, request: Request, quality: Binding -> real)
    requires EligibleIndicesDistinct(bindings)
    ensures DistinctIndices(Candidates(bindings, request, quality))
  {
    if bindings != [] {
      var n := |bindings| - 1;
      CandidateIndicesDistinct(bindings[..n], request, quality);
      var front := Candidates(bindings[..n], request, quality);
      forall i | 0 <= i < |front| ensures bindings[n].autoEligible ==>
        front[i].binding.routingIndex != bindings[n].routingIndex {
        assert front[i] in front;
        assert front[i].binding in bindings[..n];
      }
    }
  }

  // What routing relies on: a consistent Map, distinct indices among automatic
  // candidates, and no manual-only model among them.
  ghost predicate Routable(catalog: Catalog) {
    && catalog.Valid()
    && EligibleIndicesDistinct(catalog.bindings)
    && forall id :: id in catalog.models && catalog.models[id].autoEligible ==> !catalog.models[id].manualOnly
  }

  // Every catalogue that Create returns is routable.
  lemma CreatedIsRoutable(configs: seq<ProviderConfig>, catalog: Catalog)
    requires catalog.Valid() && catalog.bindings == BindAll(Flatten(configs))
    ensures Routable(catalog)
  {
    IndicesIncrease(Flatten(configs));
    BoundFlags(Flatten(configs));
    forall id | id in catalog.models && catalog.models[id].autoEligible ensures !catalog.models[id].manualOnly {
      var i :| 0 <= i < |catalog.bindings| && catalog.bindings[i] == catalog.models[id];
    }
  }

  // ---- manual-only models do not interfere ----

  function WithoutManual(models: seq<ModelConfig>): seq<ModelConfig> {
    if models == [] then []
    else WithoutManual(models[..|models| - 1]) + if models[|models| - 1].manualOnly then [] else [models[|models| - 1]]
  }

  // The configuration with every manual-only model deleted.
  function StripManual(configs: seq<ProviderConfig>): seq<ProviderConfig> {
    seq(|configs|, i requires 0 <= i < |configs| => ProviderConfig(configs[i].id, WithoutManual(configs[i].models)))
  }

  function StripEntries(entries: seq<Entry>): seq<Entry> {
    if entries == [] then []
    else
      var last := entries[|entries| - 1];
      StripEntries(entries[..|entries| - 1]) + if last.config.manualOnly then [] else [last]
  }

  lemma {:induction false} StripConcat(a: seq<Entry>, b: seq<Entry>)
    ensures StripEntries(a + b) == StripEntries(a) + StripEntries(b)
  {
    if b == [] {
      assert a + b == a;
    } else {
      assert (a + b)[..|a + b| - 1] == a + b[..|b| - 1];
      StripConcat(a, b[..|b| - 1]);
    }
  }

  lemma {:induction false} StripTag(providerId: string, models: seq<ModelConfig>)
    ensures StripEntries(Tag(providerId, models)) == Tag(providerId, WithoutManual(models))
  {
    if models != [] {
      var n := |models| - 1;
      assert Tag(providerId, models)[..n] == Tag(providerId, models[..n]);
      StripTag(providerId, models[..n]);
    }
  }

  lemma {:induction false} StripFlatten(configs: seq<ProviderConfig>)
    ensures StripEntries(Flatten(configs)) == Flatten(StripManual(configs))
  {
    if configs != [] {
      var n := |configs| - 1;
      assert StripManual(configs)[..n] == StripManual(configs[..n]);
      StripFlatten(configs[..n]);
      StripTag(configs[n].id, configs[n].models);
      StripConcat(Flatten(configs[..n]), Tag(configs[n].id, configs[n].models));
    }
  }

  // The last model takes an index and may become a candidate, unless it is manual-only.
  lemma LastModel(entries: seq<Entry>, last: Entry, request: Request, quality: Binding -> real)
    ensures
      var manual, b := last.config.manualOnly, Bind(last, RoutedCount(entries));
      && RoutedCount(entries + [last]) == RoutedCount(entries) + (if manual then 0 else 1)
      && Candidates(BindAll(entries + [last]), request, quality) ==
           Candidates(BindAll(entries), request, quality) +
           (if !manual && IsCandidate(b, request) then [Candidate(b, Score(b, quality))] else [])
      && StripEntries(entries + [last]) == StripEntries(entries) + (if manual then [] else [last])
  {
    hide Score, SupportsRequest;
    var all := entries + [last];
    assert all[..|entries|] == entries;
    var bindings := BindAll(all);
    assert bindings[..|entries|] == BindAll(entries);
  }

  // Manual-only models neither take an index nor become candidates.
  lemma {:induction false} StripKeepsCandidates(entries: seq<Entry>, request: Request, quality: Binding -> real)
    ensures RoutedCount(StripEntries(entries)) == RoutedCount(entries)
    ensures Candidates(BindAll(StripEntries(entries)), request, quality) ==
      Candidates(BindAll(entries), request, quality)
  {
    hide StripEntries, RoutedCount, Candidates, BindAll, Bind, Score, SupportsRequest;
    if entries == [] {
      NothingToStrip();
    } else {
      var front, last := entries[..|entries| - 1], entries[|entries| - 1];
      StripKeepsCandidates(front, request, quality);
      assert entries == front + [last];
      LastModel(front, last, request, quality);
      if last.config.manualOnly {
        assert StripEntries(entries) == StripEntries(front);
      } else {
        assert StripEntries(entries) == StripEntries(front) + [last];
        LastModel(StripEntries(front), last, request, quality);
      }
    }
  }

  lemma NothingToStrip()
    ensures StripEntries([]) == []
  {
  }

  // Two configurations with the same models apart from manual-only ones have the same
  // ranking: same models, same scores, same order.
  lemma ManualOnlyDoesNotInterfere(
    a: seq<ProviderConfig>, b: seq<ProviderConfig>, request: Request, quality: Binding -> real,
    ra: seq<Candidate>, rb: seq<Candidate>)
    requires StripEntries(Flatten(a)) == StripEntries(Flatten(b))
    requires IsRanking(ra, BindAll(Flatten(a)), request, quality)
    requires IsRanking(rb, BindAll(Flatten(b)), request, quality)
    ensures ra == rb
  {
    StripKeepsCandidates(Flatten(a), request, quality);
    StripKeepsCandidates(Flatten(b), request, quality);
    SortedUniquely(ra, rb);
  }

  // In particular deleting or inserting manual-only models anywhere in the providers.
  lemma ManualModelsDoNotInterfere(
    a: seq<ProviderConfig>, b: seq<ProviderConfig>, request: Request, quality: Binding -> real,
    ra: seq<Candidate>, rb: seq<Candidate>)
    requires StripManual(a) == StripManual(b)
    requires IsRanking(ra, BindAll(Flatten(a)), request, quality)
    requires IsRanking(rb, BindAll(Flatten(b)), request, quality)
    ensures ra == rb
  {
    StripFlatten(a);
    StripFlatten(b);
    ManualOnlyDoesNotInterfere(a, b, request, quality, ra, rb);
  }

  // And deleting or inserting a whole provider that has only manual-only models.
  lemma ManualProvidersDoNotInterfere(
    front: seq<ProviderConfig>, manual: ProviderConfig, back: seq<ProviderConfig>, request: Request,
    quality: Binding -> real, ra: seq<Candidate>, rb: seq<Candidate>)
    requires WithoutManual(manual.models) == []
    requires IsRanking(ra, BindAll(Flatten(front + [manual] + back)), request, quality)
    requires IsRanking(rb, BindAll(Flatten(front + back)), request, quality)
    ensures ra == rb
  {
    hide *;
    StripManualProvider(front, manual);
    StripAround(front + [manual], front, back);
    ManualOnlyDoesNotInterfere(front + [manual] + back, front + back, request, quality, ra, rb);
  }

  lemma StripManualProvider(front: seq<ProviderConfig>, manual: ProviderConfig)
    requires WithoutManual(manual.models) == []
    ensures StripEntries(Flatten(front + [manual])) == StripEntries(Flatten(front))
  {
    hide StripEntries, Flatten, WithoutManual;
    FlattenLast(front, manual);
    StripTag(manual.id, manual.models);
    StripConcat(Flatten(front), Tag(manual.id, manual.models));
  }

  lemma FlattenLast(front: seq<ProviderConfig>, last: ProviderConfig)
    ensures Flatten(front + [last]) == Flatten(front) + Tag(last.id, last.models)
  {
    assert (front + [last])[..|front|] == front;
  }

  lemma StripAround(a: seq<ProviderConfig>, b: seq<ProviderConfig>, back: seq<ProviderConfig>)
    requires StripEntries(Flatten(a)) == StripEntries(Flatten(b))
    ensures StripEntries(Flatten(a + back)) == StripEntries(Flatten(b + back))
  {
    hide StripEntries, Flatten;
    FlattenConcat(a, back);
    FlattenConcat(b, back);
    StripConcat(Flatten(a), Flatten(back));
    StripConcat(Flatten(b), Flatten(back));
  }

  lemma {:induction false} FlattenConcat(a: seq<ProviderConfig>, b: seq<ProviderConfig>)
    ensures Flatten(a + b) == Flatten(a) + Flatten(b)
    decreases |b|
  {
    if b == [] {
      assert a + b == a;
    } else {
      var front := b[..|b| - 1];
      FlattenConcat(a, front);
      assert a + b == (a + front) + [b[|b| - 1]] && b == front + [b[|b| - 1]];
      FlattenOneMore(a + front, b[|b| - 1]);
      FlattenOneMore(front, b[|b| - 1]);
    }
  }

  lemma FlattenOneMore(configs: seq<ProviderConfig>, last: ProviderConfig)
    ensures Flatten(configs + [last]) == Flatten(configs) + Tag(last.id, last.models)
  {
    assert (configs + [last])[..|configs|] == configs;
  }
}
