// findNextModelId: the worklist search for the model that takes over after a
// skipped or failed one.  The list grows while it is being scanned.
module Fallback {
  import opened Wrappers
  import opened Catalog
  import opened Ranking
  import opened Sequences

  // The attempt budget of ExecutionPolicy.
  datatype Policy = Policy(allowFallback: bool, maxAttempts: Option<nat>) {
    predicate CanAttempt(attempts: nat) {
      maxAttempts.Some? ==> attempts < maxAttempts.value
    }

    predicate CanFallback(attempts: nat) {
      allowFallback && CanAttempt(attempts)
    }
  }

  // The budget has room for another call.
  ghost predicate Room(policy: Policy, calls: nat) {
    policy.maxAttempts.Some? ==> calls + 1 <= policy.maxAttempts.value
  }

  // What the search reads while it scans.
  datatype View = View(models: map<string, Binding>, request: Request, visited: seq<string>, authFailed: set<string>) {
    // Registered, untried, not manual-only and able to serve the request.
    predicate Usable(id: string) {
      id !in visited && id in models && !models[id].manualOnly && SupportsRequest(models[id], request)
    }

    // Usable but for its provider's recorded auth failure.
    predicate Blocked(id: string): (r: bool)
      ensures r <==>
        && id in models && models[id].providerId in authFailed && !models[id].manualOnly && id !in visited
        && SupportsRequest(models[id], request)
    {
      Usable(id) && models[id].providerId in authFailed
    }

    // May be tried next.
    predicate Dispatchable(id: string): (r: bool)
      ensures r <==>
        && id in models && models[id].providerId !in authFailed && !models[id].manualOnly && id !in visited
        && SupportsRequest(models[id], request)
    {
      Usable(id) && models[id].providerId !in authFailed
    }
  }

  // Push the ids that are not in the list yet.
  function AppendMissing(list: seq<string>, ids: seq<string>): (r: seq<string>)
    ensures list <= r
    ensures forall x :: x in r <==> x in list || x in ids
    ensures Distinct(list) ==> Distinct(r)
    decreases |ids|
  {
    if ids == [] then list
    else
      assert forall x :: x in ids <==> x == ids[0] || x in ids[1..];
      AppendMissing(if ids[0] in list then list else list + [ids[0]], ids[1..])
  }

  // The new ids keep their order: what comes before one of them in the list of ids is on
  // the worklist before it.
  lemma {:induction false} NewIdsKeepTheirOrder(list: seq<string>, ids: seq<string>, j: nat)
    requires |list| <= j < |AppendMissing(list, ids)|
    ensures
      var r := AppendMissing(list, ids);
      r[j] !in list && exists q :: 0 <= q < |ids| && ids[q] == r[j] && forall p :: 0 <= p < q ==> ids[p] in r[..j]
    decreases |ids|
  {
    hide AppendMissing;
    if ids == [] {
      AppendNothing(list);
    }
    AppendFirst(list, ids);
    var r := AppendMissing(list, ids);
    var longer := if ids[0] in list then list else list + [ids[0]];
    if j < |longer| {
      assert r[j] == longer[j] == ids[0];
    } else {
      NewIdsKeepTheirOrder(longer, ids[1..], j);
      var q :| 0 <= q < |ids[1..]| && ids[1..][q] == r[j] && forall p :: 0 <= p < q ==> ids[1..][p] in r[..j];
      assert ids[q + 1] == r[j];
      var k :| 0 <= k < |longer| && longer[k] == ids[0];
      assert r[..j][k] == ids[0];
      forall p | 0 <= p < q + 1 ensures ids[p] in r[..j] {
        assert p > 0 ==> ids[p] == ids[1..][p - 1];
      }
    }
  }

  // Every id some model names as a fallback: the only ids the scan can add.
  ghost function Named(models: map<string, Binding>): set<string> {
    set id, f | id in models && f in models[id].fallbackModelIds :: f
  }

  // Scan from position i, following the edges of auth-blocked siblings.
  ghost function Scan(view: View, list: seq<string>, i: nat): (seq<string>, Option<string>)
    requires i <= |list|
    decreases Named(view.models) - Members(list), |list| - i
  {
    if i == |list| then (list, None)
    else if view.Blocked(list[i]) then
      var longer := AppendMissing(list, view.models[list[i]].fallbackModelIds);
      GrowthBound(view, list, list[i]);
      Scan(view, longer, i + 1)
    else if view.Usable(list[i]) then (list, Some(list[i]))
    else Scan(view, list, i + 1)
  }

  // The termination argument: either the list does not grow, or fewer named ids are missing from it.
  lemma GrowthBound(view: View, list: seq<string>, id: string)
    requires id in view.models
    ensures
      var longer := AppendMissing(list, view.models[id].fallbackModelIds);
      longer == list || Named(view.models) - Members(longer) < Named(view.models) - Members(list)
  {
    var longer := AppendMissing(list, view.models[id].fallbackModelIds);
    if longer != list {
      AppendGrows(list, view.models[id].fallbackModelIds);
      var x :| x in longer && x !in list;
      assert x in Named(view.models) && x !in Members(list) && x in Members(longer);
    }
  }

  lemma {:induction false} AppendGrows(list: seq<string>, ids: seq<string>)
    requires AppendMissing(list, ids) != list
    ensures exists x :: x in AppendMissing(list, ids) && x !in list
  {
    if ids[0] in list {
      AppendGrows(list, ids[1..]);
    } else {
      assert ids[0] in AppendMissing(list, ids);
    }
  }

  // ---- what the scan computes ----

  // A path that starts in the worklist and goes on through auth-blocked siblings only.
  ghost predicate Leads(view: View, start: seq<string>, path: seq<string>) {
    && path != []
    && path[0] in start
    && forall k :: 0 <= k < |path| - 1 ==> view.Blocked(path[k]) && path[k + 1] in view.models[path[k]].fallbackModelIds
  }

  ghost predicate Reachable(view: View, start: seq<string>, id: string) {
    exists path :: Leads(view, start, path) && path[|path| - 1] == id
  }

  ghost predicate AllReachable(view: View, start: seq<string>, list: seq<string>) {
    forall x :: x in list ==> Reachable(view, start, x)
  }

  lemma ReachableStep(view: View, start: seq<string>, id: string, next: string)
    requires Reachable(view, start, id) && view.Blocked(id) && next in view.models[id].fallbackModelIds
    ensures Reachable(view, start, next)
  {
    var path :| Leads(view, start, path) && path[|path| - 1] == id;
    var longer := path + [next];
    assert Leads(view, start, longer);
    assert longer[|longer| - 1] == next;
  }

  lemma StartIsReachable(view: View, start: seq<string>)
    ensures AllReachable(view, start, start)
  {
    forall x | x in start ensures Reachable(view, start, x) {
      assert Leads(view, start, [x]) && [x][|[x]| - 1] == x;
    }
  }

  ghost predicate FirstDispatchable(view: View, list: seq<string>, id: string, k: nat) {
    && k < |list| && list[k] == id && view.Dispatchable(id)
    && forall j :: 0 <= j < k ==> !view.Dispatchable(list[j])
  }

  // The scan extends its list by reachable ids only, keeps it duplicate-free, and
  // answers the first dispatchable id of the final list, if there is one.
  ghost predicate GoodScan(
    view: View, start: seq<string>, list: seq<string>, final: seq<string>, found: Option<string>)
  {
    && list <= final
    && (Distinct(list) ==> Distinct(final))
    && AllReachable(view, start, final)
    && (found.Some? ==> exists k :: FirstDispatchable(view, final, found.value, k))
    && (found.None? ==> ClosedUnderBlocked(view, final) && forall x :: x in final ==> !view.Dispatchable(x))
  }

  ghost predicate Scanned(view: View, list: seq<string>, i: nat)
    requires i <= |list|
  {
    && (forall k :: 0 <= k < i ==> !view.Dispatchable(list[k]))
    && (forall k, f :: 0 <= k < i && view.Blocked(list[k]) && f in view.models[list[k]].fallbackModelIds ==> f in list)
  }

  lemma {:induction false} ScanResult(view: View, start: seq<string>, list: seq<string>, i: nat)
    requires i <= |list| && AllReachable(view, start, list) && Scanned(view, list, i)
    ensures var (final, found) := Scan(view, list, i); GoodScan(view, start, list, final, found)
    decreases Named(view.models) - Members(list), |list| - i
  {
    hide AllReachable, Scanned, GoodScan, AppendMissing, SupportsRequest;
    if i == |list| {
      NothingFound(view, start, list);
    } else if view.Blocked(list[i]) {
      var longer := AppendMissing(list, view.models[list[i]].fallbackModelIds);
      GrowthBound(view, list, list[i]);
      ScanBlocked(view, start, list, i);
      ScanResult(view, start, longer, i + 1);
      var (final, found) := Scan(view, longer, i + 1);
      GoodForShorter(view, start, list, longer, final, found);
    } else if view.Usable(list[i]) {
      FirstFound(view, start, list, i);
    } else {
      ScanSkips(view, list, i);
      ScanResult(view, start, list, i + 1);
    }
  }

  lemma NothingFound(view: View, start: seq<string>, list: seq<string>)
    requires AllReachable(view, start, list) && Scanned(view, list, |list|)
    ensures GoodScan(view, start, list, list, None)
  {
  }

  lemma FirstFound(view: View, start: seq<string>, list: seq<string>, i: nat)
    requires i < |list| && AllReachable(view, start, list) && Scanned(view, list, i) && view.Dispatchable(list[i])
    ensures GoodScan(view, start, list, list, Some(list[i]))
  {
    assert FirstDispatchable(view, list, list[i], i);
  }

  lemma ScanSkips(view: View, list: seq<string>, i: nat)
    requires i < |list| && Scanned(view, list, i) && !view.Blocked(list[i]) && !view.Dispatchable(list[i])
    ensures Scanned(view, list, i + 1)
  {
  }

  lemma ScanBlocked(view: View, start: seq<string>, list: seq<string>, i: nat)
    requires i < |list| && AllReachable(view, start, list) && Scanned(view, list, i) && view.Blocked(list[i])
    ensures
      var longer := AppendMissing(list, view.models[list[i]].fallbackModelIds);
      AllReachable(view, start, longer) && Scanned(view, longer, i + 1)
  {
    hide AppendMissing, Reachable, SupportsRequest;
    var longer := AppendMissing(list, view.models[list[i]].fallbackModelIds);
    forall x | x in longer && x !in list ensures Reachable(view, start, x) {
      ReachableStep(view, start, list[i], x);
    }
    assert forall k :: 0 <= k <= i ==> longer[k] == list[k];
  }

  lemma GoodForShorter(
    view: View, start: seq<string>, list: seq<string>, longer: seq<string>, final: seq<string>, found: Option<string>)
    requires list <= longer && (Distinct(list) ==> Distinct(longer)) && GoodScan(view, start, longer, final, found)
    ensures GoodScan(view, start, list, final, found)
  {
  }

  ghost predicate ClosedUnderBlocked(view: View, list: seq<string>) {
    forall x, f :: x in list && view.Blocked(x) && f in view.models[x].fallbackModelIds ==> f in list
  }

  // When the chain yields nothing, nothing dispatchable is reachable at all.
  lemma {:induction false} ScanIsComplete(view: View, start: seq<string>, list: seq<string>, path: seq<string>)
    requires start <= list && ClosedUnderBlocked(view, list)
    requires forall x :: x in list ==> !view.Dispatchable(x)
    requires Leads(view, start, path)
    ensures path[|path| - 1] in list && !view.Dispatchable(path[|path| - 1])
    decreases |path|
  {
    if |path| > 1 {
      var front := path[..|path| - 1];
      assert Leads(view, start, front);
      ScanIsComplete(view, start, list, front);
      assert path[|path| - 1] in view.models[front[|front| - 1]].fallbackModelIds;
    }
  }

  // The configured chain answers exactly when a dispatchable model is reachable.
  lemma ChainAnswersIffReachable(view: View, start: seq<string>)
    ensures Scan(view, start, 0).1.Some? <==> exists id :: Reachable(view, start, id) && view.Dispatchable(id)
  {
    StartIsReachable(view, start);
    ScanResult(view, start, start, 0);
    var (final, found) := Scan(view, start, 0);
    if found.Some? {
      assert Reachable(view, start, found.value) && view.Dispatchable(found.value);
    } else {
      forall id | Reachable(view, start, id) ensures !view.Dispatchable(id) {
        var path :| Leads(view, start, path) && path[|path| - 1] == id;
        ScanIsComplete(view, start, final, path);
      }
    }
  }

  // ---- the emergency attempt ----

  // Health as the emergency selection sees it, and the quality term of the ranking.
  datatype Health = Health(idle: Binding -> bool, quality: Binding -> real)

  predicate EmergencyFit(view: View, binding: Binding, health: Health) {
    binding.modelId !in view.visited && binding.providerId !in view.authFailed && health.idle(binding)
  }

  predicate IsFirstFit(view: View, ranked: seq<Candidate>, health: Health, i: int) {
    && 0 <= i < |ranked| && EmergencyFit(view, ranked[i].binding, health)
    && forall j :: 0 <= j < i ==> !EmergencyFit(view, ranked[j].binding, health)
  }

  function FirstFit(view: View, ranked: seq<Candidate>, health: Health): (r: Option<string>)
    ensures r.Some? ==> exists i :: IsFirstFit(view, ranked, health, i) && ranked[i].binding.modelId == r.value
    ensures r.None? ==> forall i :: 0 <= i < |ranked| ==> !EmergencyFit(view, ranked[i].binding, health)
  {
    if ranked == [] then None
    else if EmergencyFit(view, ranked[0].binding, health) then
      assert IsFirstFit(view, ranked, health, 0);
      Some(ranked[0].binding.modelId)
    else
      var r := FirstFit(view, ranked[1..], health);
      assert r.Some? ==> exists i :: IsFirstFit(view, ranked, health, i) && ranked[i].binding.modelId == r.value by {
        if r.Some? {
          var i :| IsFirstFit(view, ranked[1..], health, i) && ranked[1..][i].binding.modelId == r.value;
          assert forall j :: 0 < j <= i ==> ranked[j] == ranked[1..][j - 1];
          assert IsFirstFit(view, ranked, health, i + 1);
        }
      }
      r
  }

  ghost function EmergencyModel(catalog: Catalog, view: View, health: Health): Option<string>
    requires view.visited != [] && view.visited[0] in catalog.models
  {
    if !view.request.replaySafe || catalog.models[view.visited[0]].manualOnly then None
    else FirstFit(view, Sort(Candidates(catalog.bindings, view.request, health.quality)), health)
  }

  // An emergency model is registered, untried, automatic and on no auth-failed provider,
  // and the first fit of the ranking.
  lemma EmergencyModelIsFresh(catalog: Catalog, view: View, health: Health)
    requires Routable(catalog) && view.models == catalog.models && view.visited != []
    requires view.visited[0] in catalog.models
    ensures
      var e := EmergencyModel(catalog, view, health);
      var ranked := Sort(Candidates(catalog.bindings, view.request, health.quality));
      e.Some? ==>
        && view.Dispatchable(e.value)
        && exists i :: IsFirstFit(view, ranked, health, i) && ranked[i].binding.modelId == e.value
  {
    var e := EmergencyModel(catalog, view, health);
    var ranked := Sort(Candidates(catalog.bindings, view.request, health.quality));
    if e.Some? {
      var i :| IsFirstFit(view, ranked, health, i) && ranked[i].binding.modelId == e.value;
      FitIsDispatchable(catalog, view, health, i);
    }
  }

  lemma FitIsDispatchable(catalog: Catalog, view: View, health: Health, i: int)
    requires Routable(catalog) && view.models == catalog.models && view.visited != []
    requires view.visited[0] in catalog.models
    requires IsFirstFit(view, Sort(Candidates(catalog.bindings, view.request, health.quality)), health, i)
    ensures
      var ranked := Sort(Candidates(catalog.bindings, view.request, health.quality));
      view.Dispatchable(ranked[i].binding.modelId)
  {
    var candidates := Candidates(catalog.bindings, view.request, health.quality);
    var ranked := Sort(candidates);
    assert ranked[i] in multiset(ranked);
    assert ranked[i] in candidates;
  }

  // Some automatic model that can serve the request is untried, idle and on no auth-failed
  // provider, the request may be replayed, and the run did not begin with a manual-only model.
  ghost predicate CanStepIn(catalog: Catalog, view: View, health: Health, b: Binding) {
    && view.request.replaySafe
    && view.visited != [] && view.visited[0] in catalog.models && !catalog.models[view.visited[0]].manualOnly
    && b in catalog.bindings && b.autoEligible && SupportsRequest(b, view.request)
    && b.modelId !in view.visited && b.providerId !in view.authFailed && health.idle(b)
  }

  // Of the models that can step in, this one is ranked best.
  ghost predicate StepsIn(catalog: Catalog, view: View, health: Health, b: Binding) {
    && CanStepIn(catalog, view, health, b)
    && forall other :: CanStepIn(catalog, view, health, other) && other != b ==>
         var s, t := Score(b, health.quality), Score(other, health.quality);
         s > t || (s == t && b.routingIndex < other.routingIndex)
  }

  // There is an emergency model exactly when some model can step in, and it is the best.
  lemma EmergencyExists(catalog: Catalog, view: View, health: Health)
    requires Routable(catalog) && view.models == catalog.models && view.visited != []
    requires view.visited[0] in catalog.models
    ensures
      var e := EmergencyModel(catalog, view, health);
      && (e.None? ==> forall b :: !CanStepIn(catalog, view, health, b))
      && (e.Some? ==> exists b :: StepsIn(catalog, view, health, b) && b.modelId == e.value)
  {
    hide SupportsRequest, Score;
    var candidates := Candidates(catalog.bindings, view.request, health.quality);
    var ranked := Sort(candidates);
    var e := EmergencyModel(catalog, view, health);
    if e.Some? {
      var i :| IsFirstFit(view, ranked, health, i) && ranked[i].binding.modelId == e.value;
      assert ranked[i] in multiset(ranked) && ranked[i] in candidates;
      FirstFitIsBest(catalog, view, health, i);
    } else {
      forall b ensures !CanStepIn(catalog, view, health, b) {
        if CanStepIn(catalog, view, health, b) {
          var i := RankOf(catalog, view, health, b);
        }
      }
    }
  }

  // Where a model that can step in stands in the ranking.
  lemma RankOf(catalog: Catalog, view: View, health: Health, b: Binding) returns (i: nat)
    requires CanStepIn(catalog, view, health, b)
    ensures
      var ranked := Sort(Candidates(catalog.bindings, view.request, health.quality));
      i < |ranked| && ranked[i] == Candidate(b, Score(b, health.quality)) && EmergencyFit(view, b, health)
  {
    hide SupportsRequest, Score;
    var candidates := Candidates(catalog.bindings, view.request, health.quality);
    var c := Candidate(b, Score(b, health.quality));
    assert c in candidates;
    assert c in multiset(Sort(candidates));
    i :| 0 <= i < |Sort(candidates)| && Sort(candidates)[i] == c;
  }

  lemma FirstFitIsBest(catalog: Catalog, view: View, health: Health, i: nat)
    requires Routable(catalog) && view.visited != [] && view.visited[0] in catalog.models
    requires IsFirstFit(view, Sort(Candidates(catalog.bindings, view.request, health.quality)), health, i)
    requires
      var b := Sort(Candidates(catalog.bindings, view.request, health.quality))[i].binding;
      CanStepIn(catalog, view, health, b)
    ensures
      var b := Sort(Candidates(catalog.bindings, view.request, health.quality))[i].binding;
      StepsIn(catalog, view, health, b)
  {
    hide SupportsRequest, Score, CanStepIn;
    var candidates := Candidates(catalog.bindings, view.request, health.quality);
    var ranked := Sort(candidates);
    CandidateIndicesDistinct(catalog.bindings, view.request, health.quality);
    SortOrders(candidates);
    assert ranked[i] in multiset(ranked) && ranked[i] in candidates;
    forall other | CanStepIn(catalog, view, health, other) && other != ranked[i].binding
      ensures Before(ranked[i], Candidate(other, Score(other, health.quality)))
    {
      hide Sort, Candidates, Routable;
      var j := RankOf(catalog, view, health, other);
      NoEarlierFit(view, ranked, health, i, j);
    }
  }

  lemma NoEarlierFit(view: View, ranked: seq<Candidate>, health: Health, i: nat, j: nat)
    requires IsFirstFit(view, ranked, health, i) && j < |ranked| && EmergencyFit(view, ranked[j].binding, health)
    requires Ordered(ranked) && ranked[j] != ranked[i]
    ensures Before(ranked[i], ranked[j])
  {
  }

  // ---- the search itself ----

  datatype Next = Aborted | NoModel | Found(id: string)

  function AsNext(model: Option<string>): Next {
    if model.Some? then Found(model.value) else NoModel
  }

  // The local variables of one run; emergency is the model selected by the
  // emergency attempt (the source keeps only whether there is one); emitted and
  // authRetried record what a streamed run has delivered and retried.
  datatype Run = Run(
    visited: seq<string>, authFailed: set<string>, pending: seq<string>, emergency: Option<string>, attempts: nat,
    emitted: bool, authRetried: bool)
  {
    function See(catalog: Catalog, request: Request): View {
      View(catalog.models, request, visited, authFailed)
    }
  }

  const NEW_RUN := Run([], {}, [], None, 0, false, false)

  // pendingFallbacks.push for every id that is not included yet.
  method PushMissing(list: seq<string>, ids: seq<string>) returns (pending: seq<string>)
    ensures pending == AppendMissing(list, ids)
  {
    hide AppendMissing;
    pending := list;
    assert ids[0..] == ids && ids[|ids|..] == [];
    for i := 0 to |ids|
      invariant AppendMissing(pending, ids[i..]) == AppendMissing(list, ids)
    {
      assert ids[i..][1..] == ids[i + 1..];
      AppendFirst(pending, ids[i..]);
      if ids[i] !in pending {
        pending := pending + [ids[i]];
      }
    }
    AppendNothing(pending);
  }

  lemma AppendFirst(list: seq<string>, ids: seq<string>)
    requires ids != []
    ensures AppendMissing(list, ids) == AppendMissing(if ids[0] in list then list else list + [ids[0]], ids[1..])
  {
  }

  lemma AppendNothing(list: seq<string>)
    ensures AppendMissing(list, []) == list
  {
  }

  method ScanPending(view: View, list: seq<string>) returns (pending: seq<string>, found: Option<string>)
    ensures (pending, found) == Scan(view, list, 0)
  {
    pending := list;
    var i := 0;
    while i < |pending|
      invariant i <= |pending|
      invariant Scan(view, pending, i) == Scan(view, list, 0)
      decreases Named(view.models) - Members(pending), |pending| - i
    {
      var id := pending[i];
      if id in view.visited || id !in view.models
        || view.models[id].manualOnly || !SupportsRequest(view.models[id], view.request)
      {
        i := i + 1;
        continue;
      }
      if view.models[id].providerId in view.authFailed {
        GrowthBound(view, pending, id);
        pending := PushMissing(pending, view.models[id].fallbackModelIds);
        i := i + 1;
        continue;
      }
      return pending, Some(id);
    }
    found := None;
  }

  // The result: a model of the configured chain, an emergency model, or nothing.
  ghost predicate IsNext(
    catalog: Catalog, request: Request, policy: Policy, run: Run, ids: seq<string>, aborted: bool, health: Health,
    next: Next, run': Run)
    requires run.visited != [] && run.visited[0] in catalog.models
  {
    if run.emergency.Some? then next == NoModel && run' == run
    else if aborted || !policy.CanFallback(run.attempts) then
      next == (if aborted then Aborted else NoModel) && run' == run
    else
      var view := run.See(catalog, request);
      var (final, found) := Scan(view, AppendMissing(run.pending, ids), 0);
      var emergency := if found.Some? then None else EmergencyModel(catalog, view, health);
      && run' == run.(pending := final, emergency := emergency)
      && next == AsNext(if found.Some? then found else emergency)
  }

  // What the search answers, in terms of the models that can be reached or step in.
  ghost predicate Answers(
    catalog: Catalog, request: Request, policy: Policy, run: Run, ids: seq<string>, aborted: bool, health: Health,
    next: Next, run': Run)
  {
    var view, start := run.See(catalog, request), run.pending + ids;
    && (next.Aborted? <==> run.emergency.None? && aborted)
    && if run.emergency.Some? || aborted || !policy.allowFallback || !Room(policy, run.attempts) then
         !next.Found? && run' == run
       else if AnyReachable(view, start) then
         next.Found? && Reachable(view, start, next.id) && view.Dispatchable(next.id) && run'.emergency.None?
       else if next.Found? then
         && run'.emergency == Some(next.id)
         && exists b :: StepsIn(catalog, view, health, b) && b.modelId == next.id
       else
         run'.emergency.None? && forall b :: !CanStepIn(catalog, view, health, b)
  }

  ghost predicate AnyReachable(view: View, start: seq<string>) {
    exists id :: Reachable(view, start, id) && view.Dispatchable(id)
  }

  lemma SameMembersReach(view: View, start: seq<string>, other: seq<string>, id: string)
    requires forall x :: x in start <==> x in other
    ensures Reachable(view, start, id) <==> Reachable(view, other, id)
  {
    if path :| Leads(view, start, path) && path[|path| - 1] == id {
      assert Leads(view, other, path);
    }
    if path :| Leads(view, other, path) && path[|path| - 1] == id {
      assert Leads(view, start, path);
    }
  }

  lemma NextAnswers(
    catalog: Catalog, request: Request, policy: Policy, run: Run, ids: seq<string>, aborted: bool, health: Health,
    next: Next, run': Run)
    requires Routable(catalog) && run.visited != [] && run.visited[0] in catalog.models
    requires IsNext(catalog, request, policy, run, ids, aborted, health, next, run')
    ensures Answers(catalog, request, policy, run, ids, aborted, health, next, run')
  {
    hide CanStepIn, StepsIn, Reachable, Scan, EmergencyModel, SupportsRequest;
    var view, start := run.See(catalog, request), AppendMissing(run.pending, ids);
    ChainAnswersIffReachable(view, start);
    StartIsReachable(view, start);
    ScanResult(view, start, start, 0);
    EmergencyExists(catalog, view, health);
    forall id ensures Reachable(view, start, id) <==> Reachable(view, run.pending + ids, id) {
      SameMembersReach(view, start, run.pending + ids, id);
    }
  }

  method FindNext(
    catalog: Catalog, request: Request, policy: Policy, run: Run, binding: Binding, autoFallbacks: seq<string>,
    aborted: bool, health: Health)
    returns (next: Next, run': Run)
    requires Routable(catalog) && run.visited != [] && run.visited[0] in catalog.models
    ensures IsNext(catalog, request, policy, run, binding.fallbackModelIds + autoFallbacks, aborted, health, next, run')
    ensures Answers(
      catalog, request, policy, run, binding.fallbackModelIds + autoFallbacks, aborted, health, next, run')
  {
    next, run' := Search(catalog, request, policy, run, binding, autoFallbacks, aborted, health);
    NextAnswers(
      catalog, request, policy, run, binding.fallbackModelIds + autoFallbacks, aborted, health, next, run');
  }

  // The body of findNextModelId.
  method Search(
    catalog: Catalog, request: Request, policy: Policy, run: Run, binding: Binding, autoFallbacks: seq<string>,
    aborted: bool, health: Health)
    returns (next: Next, run': Run)
    requires Routable(catalog) && run.visited != [] && run.visited[0] in catalog.models
    ensures IsNext(catalog, request, policy, run, binding.fallbackModelIds + autoFallbacks, aborted, health, next, run')
  {
    run' := run;
    if run.emergency.Some? { return NoModel, run'; }
    if aborted { return Aborted, run'; }
    if !policy.CanFallback(run.attempts) { return NoModel, run'; }
    var view := run.See(catalog, request);
    var pending := PushMissing(run.pending, binding.fallbackModelIds + autoFallbacks);
    var found;
    pending, found := ScanPending(view, pending);
    run' := run.(pending := pending);
    if found.Some? { return Found(found.value), run'; }
    if !request.replaySafe || catalog.models[run.visited[0]].manualOnly { return NoModel, run'; }
    CandidateIndicesDistinct(catalog.bindings, request, health.quality);
    var ranked := RankAutoCandidates(catalog, request, health.quality);
    var selected := FirstFit(view, ranked, health);
    if selected.None? { return NoModel, run'; }
    run' := run'.(emergency := selected);
    next := Found(selected.value);
  }

  // ---- what a search guarantees ----

  ghost predicate CarriesOver(pending: seq<string>, ids: seq<string>, pending': seq<string>) {
    (forall x :: x in pending ==> x in pending') && forall x :: x in ids ==> x in pending'
  }

  // The search went through everything and found nothing dispatchable.
  ghost predicate Searched(view: View, pending: seq<string>, ids: seq<string>, pending': seq<string>) {
    && CarriesOver(pending, ids, pending')
    && ClosedUnderBlocked(view, pending')
    && forall x :: x in pending' ==> !view.Dispatchable(x)
  }

  lemma SearchOutcome(view: View, pending: seq<string>, ids: seq<string>)
    ensures
      var (final, found) := Scan(view, AppendMissing(pending, ids), 0);
      && CarriesOver(pending, ids, final)
      && (found.Some? ==> view.Dispatchable(found.value))
      && (found.None? ==> Searched(view, pending, ids, final))
      && AllReachable(view, pending + ids, final)
  {
    var start := AppendMissing(pending, ids);
    StartIsReachable(view, start);
    ScanResult(view, start, start, 0);
    var (final, found) := Scan(view, start, 0);
    forall x | x in final ensures Reachable(view, pending + ids, x) {
      SameMembersReach(view, start, pending + ids, x);
    }
    forall x | x in start ensures x in final {
      var k :| 0 <= k < |start| && start[k] == x;
      assert final[k] == x;
    }
  }

  // Whatever model comes next is untried, registered, not manual-only, able to serve the
  // request and on no auth-failed provider; a search that fails has looked everywhere.
  lemma NextIsFresh(
    catalog: Catalog, request: Request, policy: Policy, run: Run, ids: seq<string>, aborted: bool, health: Health,
    next: Next, run': Run)
    requires Routable(catalog) && run.visited != [] && run.visited[0] in catalog.models
    requires IsNext(catalog, request, policy, run, ids, aborted, health, next, run')
    ensures run' == run.(pending := run'.pending, emergency := run'.emergency)
    ensures next.Found? ==>
      && run.See(catalog, request).Dispatchable(next.id) && policy.allowFallback
      && CarriesOver(run.pending, ids, run'.pending)
      && run.emergency.None? && (run'.emergency.Some? ==> run'.emergency == Some(next.id))
    ensures !next.Found? ==> run'.emergency == run.emergency
    ensures next.Found? ==> AllReachable(run.See(catalog, request), run.pending + ids, run'.pending)
    ensures run.emergency.None? && policy.CanFallback(run.attempts) && (next == NoModel || run'.emergency.Some?) ==>
      Searched(run.See(catalog, request), run.pending, ids, run'.pending)
  {
    var view := run.See(catalog, request);
    SearchOutcome(view, run.pending, ids);
    EmergencyModelIsFresh(catalog, view, health);
    if run.emergency.None? && policy.CanFallback(run.attempts) && (next == NoModel || run'.emergency.Some?) {
      assert !aborted;
      assert Scan(view, AppendMissing(run.pending, ids), 0).1.None?;
    }
  }
}
