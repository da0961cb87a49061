// Which model takes over after a failed turn, read off the trace: the parts of a trace,
// one for each turn, and what the search for the next model finds after them.
module Succession {
  import opened Wrappers
  import opened Catalog
  import opened Ranking
  import opened Fallback
  import opened RunTrace
  import opened RunSteps
  import opened Exhaustion

  function Flat(parts: seq<Trace>): Trace {
    if parts == [] then [] else Flat(parts[..|parts| - 1]) + parts[|parts| - 1]
  }

  lemma FlatOneMore(parts: seq<Trace>, part: Trace)
    ensures Flat(parts + [part]) == Flat(parts) + part
  {
    assert (parts + [part])[..|parts|] == parts;
  }

  // The part of a turn begins with the entry of its model.
  ghost predicate IsPart(catalog: Catalog, part: Trace) {
    && part != [] && part[0].Enter? && part[0].id in catalog.models
    && forall k :: 1 <= k < |part| ==> !part[k].Enter?
  }

  // The models entered, in order.
  function Entered(parts: seq<Trace>): seq<string> {
    seq(|parts|, n requires 0 <= n < |parts| =>
      if parts[n] != [] && parts[n][0].Enter? then parts[n][0].id else "")
  }

  ghost function AuthFailures(log: Trace): set<string> {
    set e | e in log && e.AuthFailed? :: e.provider
  }

  // What a run knows after these turns.
  ghost function Known(catalog: Catalog, request: Request, parts: seq<Trace>): View {
    View(catalog.models, request, Entered(parts), AuthFailures(Flat(parts)))
  }

  // The search is cut off by an abort; after an emergency selection there is none.
  ghost predicate SearchAborted(before: Trace, aborted: bool) {
    aborted && !EmergencyIn(before)
  }

  // After these turns, the last of which began with the trace `before`, the given model
  // takes over: one within reach if there is any, else the best one that can step in.
  ghost predicate TakesOver(
    catalog: Catalog, request: Request, policy: Policy, roots: seq<string>, parts: seq<Trace>, before: Trace,
    aborted: bool, health: Health, id: string)
  {
    var log, view := Flat(parts), Known(catalog, request, parts);
    && !EmergencyIn(before) && !aborted && policy.allowFallback && Room(policy, DispatchCount(log))
    && if AnyInReach(view, roots) then InReach(view, roots, id) && !EmergencyIn(log)
       else Emergency(id) in log && BestStepsIn(catalog, view, health, id)
  }

  ghost predicate BestStepsIn(catalog: Catalog, view: View, health: Health, id: string) {
    exists b :: StepsIn(catalog, view, health, b) && b.modelId == id
  }

  // After these turns nobody takes over: the emergency model was tried, fallback is not
  // allowed any more, or there is no model within reach and none that can step in.
  ghost predicate NobodyTakesOver(
    catalog: Catalog, request: Request, policy: Policy, roots: seq<string>, parts: seq<Trace>, before: Trace,
    aborted: bool, health: Health)
  {
    var log, view := Flat(parts), Known(catalog, request, parts);
    || EmergencyIn(before)
    || (!aborted
        && (|| !policy.allowFallback || !Room(policy, DispatchCount(log))
            || (!AnyInReach(view, roots) && forall b :: !CanStepIn(catalog, view, health, b))))
  }

  // ---- from the bookkeeping to the trace ----

  lemma EmergencyMirrored(log: Trace, run: Run)
    requires Mirrors(log, run)
    ensures run.emergency.Some? <==> EmergencyIn(log)
  {
    if e :| e in log && e.Emergency? {
      assert Recorded(e, run);
    }
  }

  lemma FailuresMirrored(log: Trace, run: Run)
    requires Mirrors(log, run)
    ensures AuthFailures(log) == run.authFailed
  {
    forall p ensures p in AuthFailures(log) <==> p in run.authFailed {
      if p in AuthFailures(log) {
        assert AuthFailed(p) in log;
        assert Recorded(AuthFailed(p), run);
      }
    }
  }

  lemma NewEmergency(log: Trace, id: string)
    ensures Emergency(id) in log + [Emergency(id)] && EmergencyIn(log + [Emergency(id)])
  {
    assert (log + [Emergency(id)])[|log|] == Emergency(id);
  }

  // What the bookkeeping says about the next model holds of the trace.
  lemma SearchMeans(
    catalog: Catalog, request: Request, policy: Policy, roots: seq<string>, run: Run, log: Trace, ids: seq<string>,
    aborted: bool, health: Health, next: Next, run': Run, log': Trace, parts: seq<Trace>, before: Trace)
    requires Mirrors(log, run) && Mirrors(log', run')
    requires run' == run.(pending := run'.pending, emergency := run'.emergency)
    requires run.visited == Entered(parts) && Flat(parts) == log'
    requires log' == log + if next.Found? && run'.emergency.Some? then [Emergency(next.id)] else []
    requires EmergencyIn(before) <==> run.emergency.Some?
    requires Answers(catalog, request, policy, run, ids, aborted, health, next, run')
    requires run.emergency.None? ==> AllConnected(run.See(catalog, request), roots, run.pending + ids)
    requires run.emergency.None? && policy.CanFallback(run.attempts) && (next == NoModel || run'.emergency.Some?) ==>
      NoneLeft(run.See(catalog, request), roots)
    ensures next.Aborted? <==> SearchAborted(before, aborted)
    ensures next.Found? ==>
      TakesOver(catalog, request, policy, roots, parts, before, aborted, health, next.id)
    ensures next == NoModel ==> NobodyTakesOver(catalog, request, policy, roots, parts, before, aborted, health)
  {
    hide Mirrors, AnyReachable, StepsIn, CanStepIn, SupportsRequest, NoneLeft, AllConnected, AnyInReach;
    var view := run.See(catalog, request);
    assert run'.attempts == DispatchCount(log') by { MirroredCount(log', run'); }
    FailuresMirrored(log', run');
    EmergencyMirrored(log', run');
    assert Known(catalog, request, parts) == view;
    NothingInReach(view, roots);
    if next.Found? && run'.emergency.Some? {
      NewEmergency(log, next.id);
    } else if next.Found? {
      ReachedIsInReach(view, roots, run.pending + ids, next.id);
    }
  }

  lemma MirroredCount(log: Trace, run: Run)
    requires Mirrors(log, run)
    ensures run.attempts == DispatchCount(log)
  {
  }

  lemma ReachedIsInReach(view: View, roots: seq<string>, start: seq<string>, id: string)
    requires AllConnected(view, roots, start) && Reachable(view, start, id) && view.Dispatchable(id)
    ensures InReach(view, roots, id) && AnyInReach(view, roots)
  {
    hide SupportsRequest;
    var path :| Leads(view, start, path) && path[|path| - 1] == id;
    ReachedIsConnected(view, roots, start, path);
  }

  // ---- the second half of a turn ----

  // The worklist is complete, and everything on it, like the model of this turn, is
  // connected to the roots.
  ghost predicate Ready(view: View, pending: seq<string>, start: string, autoFallbacks: seq<string>, current: string) {
    && Worked(view, pending, start, autoFallbacks)
    && AllConnected(view, [start] + autoFallbacks, pending + [current])
  }

  lemma ReadyToSearch(
    before: View, pending: seq<string>, after: View, start: string, autoFallbacks: seq<string>, binding: Binding)
    requires after.models == before.models && after.request == before.request
    requires after.visited == before.visited + [binding.modelId] && before.authFailed <= after.authFailed
    requires binding.modelId in before.models && before.models[binding.modelId] == binding
    requires if before.visited == [] then binding.modelId == start && pending == []
      else Ready(before, pending, start, autoFallbacks, binding.modelId)
    ensures AllConnected(after, [start] + autoFallbacks, pending + (binding.fallbackModelIds + autoFallbacks))
  {
    hide Connected, Worked;
    var roots := [start] + autoFallbacks;
    if before.visited == [] {
      RootsAreConnected(after, roots);
      assert start in roots;
    } else {
      StillConnected(before, after, roots, pending + [binding.modelId]);
    }
    NewIdsAreConnected(after, start, autoFallbacks, pending, binding);
  }

  // Look for the next model.  The trace so far has earlier parts and the part of this turn.
  method FindSuccessor(
    catalog: Catalog, request: Request, policy: Policy, binding: Binding, autoFallbacks: seq<string>, aborted: bool,
    health: Health, ghost before: Run, run: Run, log: Trace, start: string, ghost parts: seq<Trace>, ghost part: Trace)
    returns (next: Next, run': Run, log': Trace, ghost part': Trace)
    requires Routable(catalog)
    requires if before.visited == [] then binding.modelId == start && before.pending == []
      else before.emergency.None? ==>
        Ready(before.See(catalog, request), before.pending, start, autoFallbacks, binding.modelId)
    requires binding.modelId in catalog.models && catalog.models[binding.modelId] == binding
    requires run.visited == before.visited + [binding.modelId] && before.authFailed <= run.authFailed
    requires run.pending == before.pending && run.emergency == before.emergency
    requires Consistent(run, catalog, request, log) && !run.emitted
    requires log == Flat(parts) + part && run.visited == Entered(parts + [part]) && IsPart(catalog, part)
    requires EmergencyIn(Flat(parts)) <==> before.emergency.Some?
    ensures Consistent(run', catalog, request, log')
    ensures run' == run.(pending := run'.pending, emergency := run'.emergency)
    ensures log <= log' && log' == Flat(parts) + part'
    ensures part' == part + if next.Found? && run'.emergency.Some? then [Emergency(next.id)] else []
    ensures next.Found? ==>
      && run.See(catalog, request).Dispatchable(next.id) && policy.allowFallback
      && if run'.emergency.Some? then run'.emergency == Some(next.id)
         else Ready(run'.See(catalog, request), run'.pending, start, autoFallbacks, next.id)
    ensures next == NoModel && run'.emergency.None? && policy.CanFallback(run.attempts) ==>
      NoneLeft(run'.See(catalog, request), [start] + autoFallbacks)
    ensures
      var all, roots := parts + [part'], [start] + autoFallbacks;
      && (next.Aborted? <==> SearchAborted(Flat(parts), aborted))
      && (next.Found? ==>
           TakesOver(catalog, request, policy, roots, all, Flat(parts), aborted, health, next.id))
      && (next == NoModel ==>
           NobodyTakesOver(catalog, request, policy, roots, all, Flat(parts), aborted, health))
  {
    hide Safe, Mirrors, DispatchCount, Count, NoneLeft, Allowed, Ready, Connected, AnyReachable, TakesOver;
    hide NobodyTakesOver, StepsIn, CanStepIn, Flat, SupportsRequest;
    ghost var roots, ids := [start] + autoFallbacks, binding.fallbackModelIds + autoFallbacks;
    ghost var view := run.See(catalog, request);
    if before.emergency.None? {
      ReadyToSearch(before.See(catalog, request), before.pending, view, start, autoFallbacks, binding);
    }
    next, run', log' := Advance(catalog, request, policy, binding, autoFallbacks, aborted, health, run, log);
    part' := part + if next.Found? && run'.emergency.Some? then [Emergency(next.id)] else [];
    FlatOneMore(parts, part');
    if before.emergency.None? {
      SearchedForAll(catalog, request, policy, binding, autoFallbacks, before, run, next, run', start);
    }
    SameModels(parts, part, part');
    SearchMeans(
      catalog, request, policy, roots, run, log, ids, aborted, health, next, run', log', parts + [part'], Flat(parts));
  }

  lemma SameModels(parts: seq<Trace>, part: Trace, part': Trace)
    requires part != [] && part <= part'
    ensures Entered(parts + [part']) == Entered(parts + [part])
  {
  }

  // What the search has done for the worklist.
  lemma SearchedForAll(
    catalog: Catalog, request: Request, policy: Policy, binding: Binding, autoFallbacks: seq<string>, before: Run,
    run: Run, next: Next, run': Run, start: string)
    requires binding.modelId in catalog.models && catalog.models[binding.modelId] == binding
    requires run.visited == before.visited + [binding.modelId] && run.pending == before.pending
    requires run.emergency.None? && run' == run.(pending := run'.pending, emergency := run'.emergency)
    requires !next.Found? ==> run'.emergency.None?
    requires if before.visited == [] then binding.modelId == start && before.pending == []
      else Ready(before.See(catalog, request), before.pending, start, autoFallbacks, binding.modelId)
    requires
      var ids, view := binding.fallbackModelIds + autoFallbacks, run.See(catalog, request);
      && AllConnected(view, [start] + autoFallbacks, run.pending + ids)
      && (next.Found? ==>
            && CarriesOver(run.pending, ids, run'.pending) && AllReachable(view, run.pending + ids, run'.pending)
            && (run'.emergency.None? ==> Reachable(view, run.pending + ids, next.id) && view.Dispatchable(next.id)))
      && (policy.CanFallback(run.attempts) && (next == NoModel || run'.emergency.Some?) ==>
            Searched(view, run.pending, ids, run'.pending))
    ensures next.Found? && run'.emergency.None? ==>
      Ready(run'.See(catalog, request), run'.pending, start, autoFallbacks, next.id)
    ensures policy.CanFallback(run.attempts) && (next == NoModel || run'.emergency.Some?) ==>
      NoneLeft(run.See(catalog, request), [start] + autoFallbacks)
  {
    hide Connected, AllReachable, Reachable, SupportsRequest, NoneLeft, Worked, ClosedUnderBlocked;
    var roots, ids := [start] + autoFallbacks, binding.fallbackModelIds + autoFallbacks;
    var view := run.See(catalog, request);
    if next.Found? || (next == NoModel && policy.CanFallback(run.attempts)) {
      WorkedAfterSearch(
        before.See(catalog, request), before.pending, view, run'.pending, binding, start, autoFallbacks);
    }
    if next.Found? && run'.emergency.None? {
      AllReachedAreConnected(view, roots, run.pending + ids, run'.pending);
      ReachedIsInReach(view, roots, run.pending + ids, next.id);
    }
    if policy.CanFallback(run.attempts) && (next == NoModel || run'.emergency.Some?) {
      AllAreTried(view, start, autoFallbacks, run'.pending);
    }
  }
}
