// The steps shared by the buffered and the streamed run loop.
module RunSteps {
  import opened Wrappers
  import opened Catalog
  import opened Ranking
  import opened Fallback
  import opened RunTrace
  import opened Sequences

  datatype SkipKind = SkipAuth | SkipOther

  // What the error of a failed attempt tells the loop.
  datatype ProviderError = ProviderError(upstream: bool, auth: bool, unavailable: bool, uncertain: bool)

  // An error raised by the gateway itself.
  const LOCAL_ERROR := ProviderError(false, false, false, false)

  // The bookkeeping is consistent with the trace.
  ghost predicate Consistent(run: Run, catalog: Catalog, request: Request, log: Trace) {
    && Good(catalog, request, log, run)
    && Distinct(run.visited) && forall id :: id in run.visited ==> id in catalog.models
  }

  predicate WithinBudget(policy: Policy, dispatches: nat) {
    && (policy.maxAttempts.Some? ==> dispatches <= policy.maxAttempts.value)
    && (policy.allowFallback || dispatches <= 1)
  }

  method Send(catalog: Catalog, request: Request, binding: Binding, run: Run, log: Trace)
    returns (run': Run, log': Trace)
    requires Consistent(run, catalog, request, log) && !run.emitted && log != []
    requires binding.modelId in run.visited && binding == catalog.models[binding.modelId]
    requires binding.providerId !in run.authFailed
    requires Count(log, Dispatch(binding.modelId)) < if run.emergency.Some? then 1 else 2
    requires run.emergency.Some? ==> run.emergency == Some(binding.modelId)
    requires AuthRetry(binding.modelId) !in log
    ensures Consistent(run', catalog, request, log') && run' == run.(attempts := run.attempts + 1)
    ensures log' == log + [Dispatch(binding.modelId)] && log'[0] == log[0]
    ensures Count(log', Dispatch(binding.modelId)) == Count(log, Dispatch(binding.modelId)) + 1
  {
    hide Allowed, Safe, DispatchCount;
    MayDispatch(catalog, request, log, run, binding.modelId);
    Extend(catalog, request, log, run, Dispatch(binding.modelId));
    run', log' := run.(attempts := run.attempts + 1), log + [Dispatch(binding.modelId)];
  }

  method RecordAuthFailure(catalog: Catalog, request: Request, run: Run, log: Trace, provider: string)
    returns (run': Run, log': Trace)
    requires Consistent(run, catalog, request, log) && log != []
    ensures Consistent(run', catalog, request, log') && run' == run.(authFailed := run.authFailed + {provider})
    ensures log' == log + [AuthFailed(provider)]
  {
    hide Safe, Mirrors, DispatchCount;
    Extend(catalog, request, log, run, AuthFailed(provider));
    run', log' := run.(authFailed := run.authFailed + {provider}), log + [AuthFailed(provider)];
  }

  method Advance(
    catalog: Catalog, request: Request, policy: Policy, binding: Binding, autoFallbacks: seq<string>,
    aborted: bool, health: Health, run: Run, log: Trace)
    returns (next: Next, run': Run, log': Trace)
    requires Routable(catalog) && Consistent(run, catalog, request, log) && !run.emitted
    requires run.visited != []
    ensures Consistent(run', catalog, request, log')
    ensures run' == run.(pending := run'.pending, emergency := run'.emergency)
    ensures log != [] && log' != [] && log'[0] == log[0]
    ensures next.Found? ==>
      && run.See(catalog, request).Dispatchable(next.id) && policy.allowFallback
      && CarriesOver(run.pending, binding.fallbackModelIds + autoFallbacks, run'.pending)
      && run.emergency.None? && (run'.emergency.Some? ==> run'.emergency == Some(next.id))
    ensures !next.Found? ==> run'.emergency == run.emergency
    ensures log' == log + if next.Found? && run'.emergency.Some? then [Emergency(next.id)] else []
    ensures run.emergency.None? && policy.CanFallback(run.attempts) && (next == NoModel || run'.emergency.Some?) ==>
      Searched(run.See(catalog, request), run.pending, binding.fallbackModelIds + autoFallbacks, run'.pending)
    ensures next.Found? ==> AllReachable(
      run.See(catalog, request), run.pending + (binding.fallbackModelIds + autoFallbacks), run'.pending)
    ensures Answers(
      catalog, request, policy, run, binding.fallbackModelIds + autoFallbacks, aborted, health, next, run')
  {
    hide Allowed, Safe, DispatchCount, Count, IsNext, Scan, EmergencyModel, AppendMissing, ClosedUnderBlocked;
    hide Searched, CarriesOver, SupportsRequest, Reachable;
    next, run' := FindNext(catalog, request, policy, run, binding, autoFallbacks, aborted, health);
    NextIsFresh(catalog, request, policy, run, binding.fallbackModelIds + autoFallbacks, aborted, health, next, run');
    log' := log + [];
    assert log' == log;
    assert Enter(run.visited[0]) in log;
    if run'.emergency.Some? && run.emergency.None? {
      ghost var b :| StepsIn(catalog, run.See(catalog, request), health, b) && b.modelId == next.id;
      MaySelect(catalog, request, log, run, next.id);
      Extend(catalog, request, log, run, Emergency(next.id));
      log' := log + [Emergency(next.id)];
    }
  }
}
