// The benchmark batch of ProviderRegistry: which models are benchmarked, and the pool of
// workers that runs them.
module Benchmark {
  import opened Catalog
  import Ranking
  import opened Sequences

  // ---- selection ----

  predicate IsEligible(b: Binding) {
    && b.autoEligible
    && !(ImageGeneration in b.capabilities && |b.capabilities| == 1)
    && (Chat in b.capabilities || Responses in b.capabilities)
  }

  // A model that can chat does more than make images.
  lemma AnswersText()
    ensures forall b: Binding :: IsEligible(b) <==>
      b.autoEligible && (Chat in b.capabilities || Responses in b.capabilities)
  {
    forall b: Binding | Chat in b.capabilities || Responses in b.capabilities
      ensures !(ImageGeneration in b.capabilities && |b.capabilities| == 1)
    {
      if ImageGeneration in b.capabilities {
        var other := if Chat in b.capabilities then Chat else Responses;
        assert b.capabilities == {ImageGeneration, other} + (b.capabilities - {ImageGeneration, other});
      }
    }
  }

  function Eligible(bindings: seq<Binding>): (r: seq<Binding>)
    ensures forall b :: b in r <==> b in bindings && IsEligible(b)
    ensures forall b :: b in r <==>
      b in bindings && b.autoEligible && (Chat in b.capabilities || Responses in b.capabilities)
  {
    AnswersText();
    if bindings == [] then []
    else
      var n := |bindings| - 1;
      Eligible(bindings[..n]) + if IsEligible(bindings[n]) then [bindings[n]] else []
  }

  function Providers(bindings: seq<Binding>): set<string> {
    set b | b in bindings :: b.providerId
  }

  // The first candidate of each provider, in catalogue order.
  function Firsts(bindings: seq<Binding>): seq<Binding> {
    if bindings == [] then []
    else
      var n := |bindings| - 1;
      if bindings[n].providerId in Providers(bindings[..n]) then Firsts(bindings[..n])
      else Firsts(bindings[..n]) + [bindings[n]]
  }

  ghost predicate DistinctProviders(bindings: seq<Binding>) {
    forall i, j :: 0 <= i < j < |bindings| ==> bindings[i].providerId != bindings[j].providerId
  }

  lemma OneMoreProvider(bindings: seq<Binding>, b: Binding)
    ensures Providers(bindings + [b]) == Providers(bindings) + {b.providerId}
  {
    var all := bindings + [b];
    assert all[|bindings|] == b && forall x :: x in bindings ==> x in all;
  }

  // One candidate per provider, and every provider.
  lemma {:induction false} FirstsCoverProviders(bindings: seq<Binding>)
    ensures DistinctProviders(Firsts(bindings)) && Providers(Firsts(bindings)) == Providers(bindings)
    ensures |Firsts(bindings)| == |Providers(bindings)|
    ensures forall b :: b in Firsts(bindings) ==> b in bindings
  {
    hide Providers, DistinctProviders;
    if bindings == [] {
      NoProviders();
    } else {
      var n := |bindings| - 1;
      var firsts := Firsts(bindings[..n]);
      FirstsCoverProviders(bindings[..n]);
      assert bindings[..n] + [bindings[n]] == bindings;
      OneMoreProvider(bindings[..n], bindings[n]);
      OneMoreProvider(firsts, bindings[n]);
      if bindings[n].providerId !in Providers(firsts) {
        NewProviderIsDistinct(firsts, bindings[n]);
      }
    }
  }

  lemma NoProviders()
    ensures Providers([]) == {} && DistinctProviders([]) && Firsts([]) == []
  {
  }

  lemma NewProviderIsDistinct(bindings: seq<Binding>, b: Binding)
    requires DistinctProviders(bindings) && b.providerId !in Providers(bindings)
    ensures DistinctProviders(bindings + [b])
  {
    forall i | 0 <= i < |bindings| ensures bindings[i].providerId != b.providerId {
      assert bindings[i] in bindings;
    }
  }

  // What remains after the first candidates, scored.
  function Others(bindings: seq<Binding>, taken: seq<Binding>, priority: Binding -> real): (r: seq<Ranking.Candidate>)
    ensures forall c :: c in r <==> c.binding in bindings && c.binding !in taken && c.score == priority(c.binding)
  {
    if bindings == [] then []
    else
      var n := |bindings| - 1;
      var last := Ranking.Candidate(bindings[n], priority(bindings[n]));
      Others(bindings[..n], taken, priority) + if bindings[n] in taken then [] else [last]
  }

  // Beyond the first candidates every selected one beats every candidate left out.
  ghost predicate BestOthers(selected: seq<Binding>, candidates: seq<Binding>, priority: Binding -> real) {
    forall i, b :: |Firsts(candidates)| <= i < |selected| && b in candidates && b !in selected ==>
      || priority(b) < priority(selected[i])
      || (priority(b) == priority(selected[i]) && b.routingIndex > selected[i].routingIndex)
  }

  // A benchmark selection: the first candidate of every provider as far as the limit
  // allows, then the best of the others.
  ghost predicate IsSelection(selected: seq<Binding>, candidates: seq<Binding>, limit: nat, priority: Binding -> real) {
    && Distinct(selected) && (forall b :: b in selected ==> b in candidates)
    && |selected| == (if limit == 0 || |candidates| <= limit then |candidates| else limit)
    && (limit == 0 || limit >= |Providers(candidates)| ==> Providers(selected) == Providers(candidates))
    && (0 < limit < |Providers(candidates)| && limit < |candidates| ==> DistinctProviders(selected))
    && (0 < limit < |candidates| ==> BestOthers(selected, candidates, priority))
  }

  ghost predicate IndicesFollowOrder(bindings: seq<Binding>) {
    forall i, j :: 0 <= i < j < |bindings| && bindings[i].autoEligible && bindings[j].autoEligible ==>
      bindings[i].routingIndex < bindings[j].routingIndex
  }

  // In every created catalogue the routing indices follow the catalogue order, so they
  // break ties like the position in the list does.
  lemma CreatedIndicesFollowOrder(configs: seq<ProviderConfig>)
    ensures IndicesFollowOrder(BindAll(Flatten(configs)))
  {
    Ranking.IndicesIncrease(Flatten(configs));
    Ranking.BoundFlags(Flatten(configs));
  }

  lemma {:induction false} EligibleFollowOrder(bindings: seq<Binding>)
    requires IndicesFollowOrder(bindings)
    ensures forall i, j :: 0 <= i < j < |Eligible(bindings)| ==>
      Eligible(bindings)[i].routingIndex < Eligible(bindings)[j].routingIndex
  {
    if bindings != [] {
      var n := |bindings| - 1;
      EligibleFollowOrder(bindings[..n]);
      forall b | b in Eligible(bindings[..n]) && IsEligible(bindings[n])
        ensures b.routingIndex < bindings[n].routingIndex
      {
        var i :| 0 <= i < n && bindings[i] == b;
      }
      assert forall i :: 0 <= i < |Eligible(bindings[..n])| ==> Eligible(bindings[..n])[i] in Eligible(bindings[..n]);
    }
  }

  ghost predicate Increasing(bindings: seq<Binding>) {
    forall i, j :: 0 <= i < j < |bindings| ==> bindings[i].routingIndex < bindings[j].routingIndex
  }

  // selectBenchmarkCandidates
  method SelectBenchmarkCandidates(catalog: Catalog, maxModels: int, priority: Binding -> real)
    returns (selected: seq<Binding>)
    requires IndicesFollowOrder(catalog.bindings)
    ensures IsSelection(selected, Eligible(catalog.bindings), if maxModels < 0 then 0 else maxModels, priority)
  {
    hide IsSelection, Firsts, Others, Ranking.Sort, AreOthers;
    var candidates := Eligible(catalog.bindings);
    var limit: nat := if maxModels < 0 then 0 else maxModels;
    EligibleFollowOrder(catalog.bindings);
    if limit == 0 || |candidates| <= limit {
      EverythingIsSelected(candidates, limit, priority);
      return candidates;
    }
    var required := TakeFirsts(candidates, limit);
    if |required| >= limit {
      OnlyFirstsAreSelected(candidates, limit, priority);
      return required;
    }
    var ranked := Ranking.Sort(Others(candidates, required, priority));
    SortedOthers(candidates, priority);
    selected := required;
    var i := 0;
    while i < |ranked| && |selected| < limit
      invariant i <= |ranked| && |selected| <= limit
      invariant selected == required + Bindings(ranked[..i]) && |selected| == |required| + i
    {
      BindingsOneMore(ranked, i);
      selected := selected + [ranked[i].binding];
      i := i + 1;
    }
    BestAreSelected(candidates, limit, priority, ranked, i);
  }

  function Bindings(candidates: seq<Ranking.Candidate>): (r: seq<Binding>)
    ensures |r| == |candidates| && forall i :: 0 <= i < |r| ==> r[i] == candidates[i].binding
  {
    if candidates == [] then [] else Bindings(candidates[..|candidates| - 1]) + [candidates[|candidates| - 1].binding]
  }

  lemma BindingsOneMore(candidates: seq<Ranking.Candidate>, i: nat)
    requires i < |candidates|
    ensures Bindings(candidates[..i + 1]) == Bindings(candidates[..i]) + [candidates[i].binding]
  {
  }

  lemma EverythingIsSelected(candidates: seq<Binding>, limit: nat, priority: Binding -> real)
    requires Increasing(candidates) && (limit == 0 || |candidates| <= limit)
    ensures IsSelection(candidates, candidates, limit, priority)
  {
    FirstsCoverProviders(candidates);
  }

  lemma OnlyFirstsAreSelected(candidates: seq<Binding>, limit: nat, priority: Binding -> real)
    requires Increasing(candidates) && 0 < limit < |candidates| && limit <= |Firsts(candidates)|
    ensures IsSelection(Firsts(candidates)[..limit], candidates, limit, priority)
  {
    FirstsCoverProviders(candidates);
    var selected := Firsts(candidates)[..limit];
    assert DistinctProviders(selected);
    assert limit == |Firsts(candidates)| ==> selected == Firsts(candidates);
  }

  // Every candidate is a first one or one of the others, and none is both.
  lemma {:induction false} OthersCount(bindings: seq<Binding>, taken: seq<Binding>, priority: Binding -> real)
    ensures |Others(bindings, taken, priority)| + |Among(bindings, taken)| == |bindings|
  {
    if bindings != [] {
      OthersCount(bindings[..|bindings| - 1], taken, priority);
    }
  }

  lemma {:induction false} OthersIndices(bindings: seq<Binding>, taken: seq<Binding>, priority: Binding -> real)
    requires Increasing(bindings)
    ensures Ranking.DistinctIndices(Others(bindings, taken, priority))
  {
    if bindings != [] {
      var n := |bindings| - 1;
      var others := Others(bindings[..n], taken, priority);
      OthersIndices(bindings[..n], taken, priority);
      forall i | 0 <= i < |others| ensures others[i].binding.routingIndex < bindings[n].routingIndex {
        assert others[i] in others;
        var j :| 0 <= j < n && bindings[j] == others[i].binding;
      }
    }
  }

  function Among(bindings: seq<Binding>, taken: seq<Binding>): (r: seq<Binding>)
    ensures forall b :: b in r <==> b in bindings && b in taken
  {
    if bindings == [] then []
    else
      var n := |bindings| - 1;
      Among(bindings[..n], taken) + if bindings[n] in taken then [bindings[n]] else []
  }

  lemma {:induction false} AmongDistinct(bindings: seq<Binding>, taken: seq<Binding>)
    requires Increasing(bindings)
    ensures Distinct(Among(bindings, taken))
  {
    if bindings != [] {
      var n := |bindings| - 1;
      AmongDistinct(bindings[..n], taken);
      assert bindings[n] !in bindings[..n];
      assert bindings[n] !in Among(bindings[..n], taken);
    }
  }

  lemma EnoughOthers(candidates: seq<Binding>, priority: Binding -> real)
    requires Increasing(candidates)
    ensures |Firsts(candidates)| + |Others(candidates, Firsts(candidates), priority)| == |candidates|
  {
    var firsts := Firsts(candidates);
    var among := Among(candidates, firsts);
    FirstsCoverProviders(candidates);
    OthersCount(candidates, firsts, priority);
    AmongDistinct(candidates, firsts);
    assert Distinct(firsts);
    DistinctSize(firsts);
    DistinctSize(among);
    assert Members(among) == Members(firsts);
  }

  // The others, best first.
  ghost predicate AreOthers(
    ranked: seq<Ranking.Candidate>, candidates: seq<Binding>, taken: seq<Binding>, priority: Binding -> real)
  {
    && Ranking.Ordered(ranked)
    && forall c :: c in ranked <==> c.binding in candidates && c.binding !in taken && c.score == priority(c.binding)
  }

  lemma SortedOthers(candidates: seq<Binding>, priority: Binding -> real)
    requires Increasing(candidates)
    ensures
      var ranked := Ranking.Sort(Others(candidates, Firsts(candidates), priority));
      AreOthers(ranked, candidates, Firsts(candidates), priority) && |Firsts(candidates)| + |ranked| == |candidates|
  {
    hide Ranking.Before, Firsts, Ranking.Sort;
    var others := Others(candidates, Firsts(candidates), priority);
    EnoughOthers(candidates, priority);
    OthersIndices(candidates, Firsts(candidates), priority);
    Ranking.SortOrders(others);
    assert |Ranking.Sort(others)| == |multiset(Ranking.Sort(others))| == |multiset(others)| == |others|;
    RankedAreOthers(others);
  }

  lemma BestAreSelected(
    candidates: seq<Binding>, limit: nat, priority: Binding -> real, ranked: seq<Ranking.Candidate>, k: nat)
    requires Increasing(candidates) && limit < |candidates| && |Firsts(candidates)| + k == limit && 0 < k <= |ranked|
    requires AreOthers(ranked, candidates, Firsts(candidates), priority)
    ensures IsSelection(Firsts(candidates) + Bindings(ranked[..k]), candidates, limit, priority)
  {
    hide Firsts, AreOthers;
    var firsts := Firsts(candidates);
    var selected := firsts + Bindings(ranked[..k]);
    FirstsCoverProviders(candidates);
    SelectionIsDistinct(candidates, firsts, ranked, k, priority);
    SelectionIsBest(candidates, firsts, ranked, k, priority);
    ProvidersOfMore(firsts, selected, candidates);
  }

  lemma ProvidersOfMore(firsts: seq<Binding>, selected: seq<Binding>, candidates: seq<Binding>)
    requires Providers(firsts) == Providers(candidates) && firsts <= selected
    requires forall b :: b in selected ==> b in candidates
    ensures Providers(selected) == Providers(candidates)
  {
    forall b | b in firsts ensures b in selected {
      var i :| 0 <= i < |firsts| && firsts[i] == b;
      assert selected[i] == b;
    }
  }

  lemma SelectionIsDistinct(
    candidates: seq<Binding>, firsts: seq<Binding>, ranked: seq<Ranking.Candidate>, k: nat, priority: Binding -> real)
    requires AreOthers(ranked, candidates, firsts, priority) && DistinctProviders(firsts) && k <= |ranked|
    requires forall b :: b in firsts ==> b in candidates
    ensures Distinct(firsts + Bindings(ranked[..k]))
    ensures forall b :: b in firsts + Bindings(ranked[..k]) ==> b in candidates
  {
    var picked := Bindings(ranked[..k]);
    forall i | 0 <= i < k
      ensures picked[i] == ranked[i].binding && ranked[i].score == priority(picked[i])
      ensures picked[i] in candidates && picked[i] !in firsts
    {
      assert ranked[i] in ranked;
    }
    forall i, j | 0 <= i < j < k ensures picked[i] != picked[j] {
      assert Ranking.Before(ranked[i], ranked[j]);
    }
    DistinctParts(firsts, picked);
  }

  lemma DistinctParts(a: seq<Binding>, b: seq<Binding>)
    requires DistinctProviders(a) && Distinct(b) && forall i :: 0 <= i < |b| ==> b[i] !in a
    ensures Distinct(a + b)
  {
  }

  lemma SelectionIsBest(
    candidates: seq<Binding>, firsts: seq<Binding>, ranked: seq<Ranking.Candidate>, k: nat, priority: Binding -> real)
    requires AreOthers(ranked, candidates, firsts, priority) && k <= |ranked|
    ensures
      var selected := firsts + Bindings(ranked[..k]);
      forall i, b :: |firsts| <= i < |selected| && b in candidates && b !in selected ==>
        Ranking.Before(Ranking.Candidate(selected[i], priority(selected[i])), Ranking.Candidate(b, priority(b)))
  {
    hide Ranking.Before;
    var picked := Bindings(ranked[..k]);
    var selected := firsts + picked;
    forall i, b | |firsts| <= i < |selected| && b in candidates && b !in selected
      ensures Ranking.Before(Ranking.Candidate(selected[i], priority(selected[i])), Ranking.Candidate(b, priority(b)))
    {
      var c := Ranking.Candidate(b, priority(b));
      assert b !in firsts && b !in picked;
      assert c in ranked;
      var j :| 0 <= j < |ranked| && ranked[j] == c;
      assert forall m :: 0 <= m < k ==> picked[m] == ranked[m].binding && picked[m] in picked;
      assert ranked[i - |firsts|] in ranked;
    }
  }

  lemma RankedAreOthers(others: seq<Ranking.Candidate>)
    ensures forall c :: c in Ranking.Sort(others) <==> c in others
  {
    forall c ensures c in Ranking.Sort(others) <==> c in others {
      assert c in multiset(Ranking.Sort(others)) <==> c in multiset(others);
    }
  }

  // The loop that takes one candidate per provider and stops at the limit.
  method TakeFirsts(candidates: seq<Binding>, limit: nat) returns (selected: seq<Binding>)
    requires limit > 0
    ensures selected == if limit <= |Firsts(candidates)| then Firsts(candidates)[..limit] else Firsts(candidates)
  {
    hide Firsts, Providers;
    selected := [];
    var requiredProviderIds := {};
    NoProviders();
    assert candidates[..0] == [];
    for i := 0 to |candidates|
      invariant selected == Firsts(candidates[..i]) && |selected| < limit
      invariant requiredProviderIds == Providers(candidates[..i])
    {
      var binding := candidates[i];
      assert candidates[..i + 1] == candidates[..i] + [binding];
      OneMoreProvider(candidates[..i], binding);
      OneMoreFirst(candidates, i);
      if binding.providerId in requiredProviderIds { continue; }
      selected := selected + [binding];
      requiredProviderIds := requiredProviderIds + {binding.providerId};
      if |selected| >= limit {
        FirstsGrow(candidates, i + 1);
        return;
      }
    }
    assert candidates[..|candidates|] == candidates;
  }

  lemma OneMoreFirst(candidates: seq<Binding>, i: nat)
    requires i < |candidates|
    ensures Firsts(candidates[..i + 1]) ==
      Firsts(candidates[..i]) + if candidates[i].providerId in Providers(candidates[..i]) then [] else [candidates[i]]
  {
    assert candidates[..i + 1][..i] == candidates[..i];
  }

  lemma {:induction false} FirstsGrow(bindings: seq<Binding>, i: nat)
    requires i <= |bindings|
    ensures Firsts(bindings[..i]) <= Firsts(bindings)
  {
    if i < |bindings| {
      FirstsGrow(bindings[..|bindings| - 1], i);
      assert bindings[..|bindings| - 1][..i] == bindings[..i];
    } else {
      assert bindings[..i] == bindings;
    }
  }

  // ---- the pool of workers ----

  datatype Worker = Running(index: nat) | Returned

  // One batch over n candidates.  Between two awaits a worker finishes its candidate and
  // takes the next one, or returns.
  class Pool {
    const n: nat
    var nextIndex: nat
    var workers: seq<Worker>
    // The candidates in the order of their starts and of their ends.
    var started: seq<nat>
    var finished: seq<nat>

    function InFlight(): set<nat>
      reads `workers
    {
      Flying(workers)
    }

    // Each candidate was started at most once, in list order; what was started is in
    // flight or finished; a worker returns only when nothing is left to start.
    ghost predicate Valid()
      reads this
    {
      && nextIndex <= n && |started| == nextIndex && (forall i :: 0 <= i < nextIndex ==> started[i] == i)
      && (forall v, w :: 0 <= v < w < |workers| && workers[v].Running? && workers[w].Running? ==>
        workers[v].index != workers[w].index)
      && (forall w :: 0 <= w < |workers| && workers[w].Running? ==>
        workers[w].index < nextIndex && workers[w].index !in finished)
      && (forall i :: 0 <= i < nextIndex ==> i in finished || i in InFlight())
      && (forall i :: i in finished ==> i < nextIndex)
      && (forall i, j :: 0 <= i < j < |finished| ==> finished[i] != finished[j])
      && ((exists w :: 0 <= w < |workers| && workers[w].Returned?) ==> nextIndex == n)
    }

    // Array.from starts the workers one after the other; each takes its first candidate.
    constructor (n: nat, concurrency: int)
      requires n > 0
      ensures Valid() && this.n == n && |workers| == PoolSize(n, concurrency)
      ensures workers == FirstRound(n, concurrency) && started == Indices(|workers|) && finished == []
    {
      this.n := n;
      nextIndex := PoolSize(n, concurrency);
      workers := FirstRound(n, concurrency);
      started := Indices(PoolSize(n, concurrency));
      finished := [];
      new;
      forall i | 0 <= i < nextIndex ensures i in InFlight() {
        assert workers[i].index == i;
      }
    }

    // A worker's candidate is done: while (nextIndex < candidates.length) goes on.
    method Finish(w: nat)
      requires Valid() && w < |workers| && workers[w].Running?
      modifies `nextIndex, `workers, `started, `finished
      ensures Valid() && |workers| == |old(workers)|
      ensures finished == old(finished) + [old(workers)[w].index]
      ensures started == if old(nextIndex) < n then old(started) + [old(nextIndex)] else old(started)
      ensures workers == old(workers)[w := if old(nextIndex) < n then Running(old(nextIndex)) else Returned]
    {
      ghost var before := workers;
      finished := finished + [workers[w].index];
      if nextIndex < n {
        started := started + [nextIndex];
        workers := workers[w := Running(nextIndex)];
        nextIndex := nextIndex + 1;
      } else {
        workers := workers[w := Returned];
      }
      forall i | 0 <= i < nextIndex ensures i in finished || i in InFlight() {
        if i < old(nextIndex) && i !in old(finished) && i != before[w].index {
          var v :| 0 <= v < |before| && before[v].Running? && before[v].index == i;
          assert workers[v] == before[v];
        } else if i == old(nextIndex) {
          assert workers[w].index == i;
        }
      }
    }
  }

  function PoolSize(n: nat, concurrency: int): (k: nat)
    requires n > 0
    ensures 1 <= k <= n && (k == 1 || k <= concurrency)
    ensures k == n || k >= concurrency
  {
    if concurrency < 1 then 1 else if concurrency < n then concurrency else n
  }

  function FirstRound(n: nat, concurrency: int): seq<Worker>
    requires n > 0
  {
    seq(PoolSize(n, concurrency), w requires 0 <= w => Running(w))
  }

  function Indices(k: nat): seq<nat> {
    seq(k, i requires 0 <= i => i)
  }

  // What is to happen: the first candidates start, and whenever the worker that is next in
  // the schedule finishes its candidate, it takes the first one that nobody has taken.
  datatype Batch = Batch(workers: seq<Worker>, taken: nat, finished: seq<nat>)

  function BatchAfter(n: nat, concurrency: int, schedule: seq<nat>): Batch
    requires n > 0
  {
    if schedule == [] then Batch(FirstRound(n, concurrency), PoolSize(n, concurrency), [])
    else Ended(BatchAfter(n, concurrency, schedule[..|schedule| - 1]), n, schedule[|schedule| - 1])
  }

  function Ended(b: Batch, n: nat, w: nat): Batch {
    if w >= |b.workers| || b.workers[w].Returned? then b
    else if b.taken < n then
      Batch(b.workers[w := Running(b.taken)], b.taken + 1, b.finished + [b.workers[w].index])
    else Batch(b.workers[w := Returned], b.taken, b.finished + [b.workers[w].index])
  }

  // For every order in which running candidates finish: starts are in list order, never
  // more than PoolSize in flight, and when no worker is running any more, every candidate
  // was run exactly once.  As long as some candidate is not finished, some worker runs.
  method RunBenchmarkBatch(n: nat, concurrency: int, schedule: seq<nat>)
    returns (started: seq<nat>, finished: seq<nat>, running: bool)
    requires n > 0
    ensures |started| <= n && forall i :: 0 <= i < |started| ==> started[i] == i
    ensures var b := BatchAfter(n, concurrency, schedule); |started| == b.taken && finished == b.finished
    ensures |started| - |finished| <= 1 || |started| - |finished| <= concurrency
    ensures |started| < n ==> |started| - |finished| >= concurrency
    ensures !running <==> |finished| == n
    ensures !running ==> |started| == n && forall i :: 0 <= i < n ==> i in finished
    ensures forall i, j :: 0 <= i < j < |finished| ==> finished[i] != finished[j]
  {
    hide Pool.Valid, Ended;
    var pool := new Pool(n, concurrency);
    for k := 0 to |schedule|
      invariant pool.Valid() && fresh(pool) && pool.n == n && |pool.workers| == PoolSize(n, concurrency)
      invariant Batch(pool.workers, |pool.started|, pool.finished) == BatchAfter(n, concurrency, schedule[..k])
    {
      assert schedule[..k + 1][..k] == schedule[..k];
      Turn(pool, schedule[k]);
    }
    assert schedule[..|schedule|] == schedule;
    started, finished := pool.started, pool.finished;
    StartedInOrder(pool);
    running := exists w :: 0 <= w < |pool.workers| && pool.workers[w].Running?;
    FlightCount(pool);
  }

  // A worker that is running ends its candidate.
  method Turn(pool: Pool, w: nat)
    requires pool.Valid()
    modifies pool
    ensures pool.Valid() && |pool.workers| == |old(pool.workers)|
    ensures Batch(pool.workers, |pool.started|, pool.finished) ==
      old(Ended(Batch(pool.workers, |pool.started|, pool.finished), pool.n, w))
  {
    if w < |pool.workers| && pool.workers[w].Running? {
      pool.Finish(w);
    }
  }

  lemma StartedInOrder(pool: Pool)
    requires pool.Valid()
    ensures |pool.started| <= pool.n && forall i :: 0 <= i < |pool.started| ==> pool.started[i] == i
    ensures forall i, j :: 0 <= i < j < |pool.finished| ==> pool.finished[i] != pool.finished[j]
    ensures |pool.finished| == |pool.started| ==> forall i :: 0 <= i < |pool.started| ==> i in pool.finished
  {
    FlightSets(pool);
    if |pool.finished| == |pool.started| {
      CountParts(pool.started, pool.finished, pool.InFlight());
      forall i | 0 <= i < |pool.started| ensures i in pool.finished {
        assert pool.started[i] in pool.started;
      }
    }
  }

  lemma FlightCount(pool: Pool)
    requires pool.Valid() && pool.n > 0 && |pool.workers| > 0
    ensures |pool.finished| <= |pool.started| <= |pool.finished| + |pool.workers|
    ensures (exists w :: 0 <= w < |pool.workers| && pool.workers[w].Running?) <==> |pool.finished| < pool.n
    ensures |pool.started| < pool.n ==> |pool.started| == |pool.finished| + |pool.workers|
  {
    FlightSets(pool);
    FlyingBound(pool.workers);
    AllFlying(pool.workers);
    CountParts(pool.started, pool.finished, pool.InFlight());
    if w :| 0 <= w < |pool.workers| && pool.workers[w].Running? {
      assert pool.workers[w].index in pool.InFlight();
    } else {
      assert pool.InFlight() == {};
      assert pool.workers[0].Returned?;
    }
  }

  lemma FlightSets(pool: Pool)
    requires pool.Valid()
    ensures forall i :: i in pool.started <==> i in pool.finished || i in pool.InFlight()
    ensures forall i :: i in pool.finished ==> i !in pool.InFlight()
    ensures forall i, j :: 0 <= i < j < |pool.started| ==> pool.started[i] != pool.started[j]
  {
    forall i | i in pool.finished || i in pool.InFlight() ensures i in pool.started {
      assert pool.started[i] == i;
    }
    forall i | i in pool.started ensures i in pool.finished || i in pool.InFlight() {
      assert 0 <= i < pool.nextIndex;
    }
  }

  lemma CountParts(started: seq<nat>, finished: seq<nat>, flying: set<nat>)
    requires Distinct(started) && Distinct(finished)
    requires forall i :: i in started <==> i in finished || i in flying
    requires forall i :: i in finished ==> i !in flying
    ensures |started| == |finished| + |flying|
  {
    DistinctSize(started);
    DistinctSize(finished);
    assert Members(started) == Members(finished) + flying && Members(finished) !! flying;
  }

  function Flying(workers: seq<Worker>): set<nat> {
    set w | 0 <= w < |workers| && workers[w].Running? :: workers[w].index
  }

  // No worker is idle, so there are as many candidates in flight as workers.
  lemma AllFlying(workers: seq<Worker>)
    requires forall v, w :: 0 <= v < w < |workers| && workers[v].Running? && workers[w].Running? ==>
      workers[v].index != workers[w].index
    ensures (forall w :: 0 <= w < |workers| ==> workers[w].Running?) ==> |Flying(workers)| == |workers|
  {
    if forall w :: 0 <= w < |workers| ==> workers[w].Running? {
      var list := seq(|workers|, w requires 0 <= w < |workers| => workers[w].index);
      DistinctSize(list);
      forall i ensures i in Members(list) <==> i in Flying(workers) {
        if i in Flying(workers) {
          var w :| 0 <= w < |workers| && workers[w].index == i;
          assert list[w] == i;
        }
      }
      assert Members(list) == Flying(workers);
    }
  }

  lemma {:induction false} FlyingBound(workers: seq<Worker>)
    ensures |Flying(workers)| <= |workers|
  {
    if workers != [] {
      var n := |workers| - 1;
      FlyingBound(workers[..n]);
      assert Flying(workers) == Flying(workers[..n]) + (if workers[n].Running? then {workers[n].index} else {});
    }
  }
}
