// What a buffered run has done: which replies make an answer, when a provider is called
// again, and how a turn ends, all in terms of the oracle values of the turn and of the
// trace before it.  The loop in BufferedRun is proved against these definitions.
module BufferedLaw {
  import opened Wrappers
  import opened Catalog
  import opened Fallback
  import opened RunTrace
  import opened RunSteps
  import opened Exhaustion
  import opened Succession

  datatype Reply = Answer | InvalidAnswer | Rejection(error: ProviderError)

  // Points at which execution.check() may find the request aborted or expired.
  datatype Aborts = Aborts(atTop: bool, beforeDispatch: bool, beforeRetry: bool, afterReply: bool, inSearch: bool)

  datatype Turn = Turn(
    aborts: Aborts,
    skip: Option<SkipKind>,  // getModelSkipReason of the current model
    first: Reply,            // the provider's answer
    retryAllowed: bool,      // profileRetryAllowed for its error
    second: Reply,           // the answer to the retry
    health: Health)

  datatype Outcome = Refused | AbortedRun | Uncertain | Served(id: string) | Exhausted

  // One turn: its model and oracle values, the calls of the run before it, whether the
  // emergency model had been selected, and the calls made in it.
  datatype Case = Case(
    binding: Binding, request: Request, policy: Policy, turn: Turn, callsBefore: nat, emergency: bool, made: nat)
  {
    // The model can serve the request at all.
    ghost predicate Serves() {
      && (request.kind == ChatCompletions ==> Chat in binding.capabilities)
      && (request.kind == ResponsesApi ==> Responses in binding.capabilities)
      && (request.kind == ImagesGenerations ==> ImageGeneration in binding.capabilities)
      && (request.requiresTools ==> Tools in binding.capabilities)
    }

    ghost predicate IsCalled() {
      turn.skip.None? && Serves() && !turn.aborts.beforeDispatch && Room(policy, callsBefore)
    }

    // The first reply is an upstream error that the profile retries, to a request that may
    // be replayed, and this is no emergency attempt.
    ghost predicate RetryIsDue() {
      && turn.first.Rejection? && turn.first.error.upstream && turn.retryAllowed
      && request.replaySafe && !emergency
    }

    ghost predicate IsCalledAgain() {
      && IsCalled() && RetryIsDue() && !turn.aborts.beforeRetry
      && policy.allowFallback && Room(policy, callsBefore + 1)
    }

    ghost predicate CallsAreRight() {
      made <= 2 && (made >= 1 <==> IsCalled()) && (made == 2 <==> IsCalledAgain())
    }

    // The reply to the last call.
    ghost function LastReply(): Reply {
      if made == 2 then turn.second else turn.first
    }

    ghost predicate IsStopped() {
      || (turn.skip.None? && Serves() && turn.aborts.beforeDispatch)
      || (made >= 1 && (turn.aborts.afterReply || (RetryIsDue() && turn.aborts.beforeRetry)))
    }

    // The last call was answered.
    ghost predicate IsAnswered() {
      made >= 1 && !IsStopped() && LastReply().Answer?
    }

    ghost predicate IsRejected() {
      made >= 1 && !IsStopped() && LastReply().Rejection?
    }

    ghost predicate IsUncertain() {
      IsRejected() && LastReply().error.uncertain
    }

    // The model was skipped or not called, or the reply to the last call is no answer.
    ghost predicate Fails() {
      !IsStopped() && !IsAnswered() && !IsUncertain()
    }

    ghost predicate RecordsAuthFailure(failFast: set<string>) {
      || turn.skip == Some(SkipAuth)
      || (Fails() && IsRejected() && LastReply().error.upstream && LastReply().error.auth
          && binding.providerId in failFast)
    }
  }

  ghost function CaseOf(
    catalog: Catalog, request: Request, policy: Policy, turn: Turn, before: Trace, part: Trace): Case
    requires IsPart(catalog, part)
  {
    Case(
      catalog.models[part[0].id], request, policy, turn, DispatchCount(before), EmergencyIn(before),
      DispatchCount(part))
  }

  // The part of the trace that a turn adds: its calls are those due, all to its model, and
  // an auth failure of its provider is recorded when it is one.
  ghost predicate TurnExplained(
    catalog: Catalog, request: Request, policy: Policy, failFast: set<string>, turn: Turn, before: Trace, part: Trace)
  {
    && IsPart(catalog, part) && !turn.aborts.atTop
    && var c := CaseOf(catalog, request, policy, turn, before, part);
    && c.CallsAreRight()
    && (AuthFailed(c.binding.providerId) in part <==> c.RecordsAuthFailure(failFast))
    && forall k :: 1 <= k < |part| ==>
         part[k] == Dispatch(part[0].id) || part[k] == AuthFailed(c.binding.providerId) || part[k].Emergency?
  }

  // Everything a run is told: its configuration, its roots, and the oracle of its turns.
  datatype Setting = Setting(
    catalog: Catalog, request: Request, policy: Policy, failFast: set<string>, roots: seq<string>, turns: nat -> Turn)
  {
    ghost predicate Explained(parts: seq<Trace>, n: nat)
      requires n < |parts|
    {
      TurnExplained(catalog, request, policy, failFast, turns(n), Flat(parts[..n]), parts[n])
    }

    ghost function CaseAt(parts: seq<Trace>, n: nat): Case
      requires n < |parts| && IsPart(catalog, parts[n])
    {
      CaseOf(catalog, request, policy, turns(n), Flat(parts[..n]), parts[n])
    }

    // The n-th turn failed, and this model was found to take over.
    ghost predicate FallsBackTo(parts: seq<Trace>, n: nat, id: string)
      requires n < |parts|
    {
      && IsPart(catalog, parts[n]) && CaseAt(parts, n).Fails()
      && TakesOver(
           catalog, request, policy, roots, parts[..n + 1], Flat(parts[..n]), turns(n).aborts.inSearch,
           turns(n).health, id)
    }

    // The n-th turn failed and was followed by the model that takes over; current comes
    // after the last one.
    ghost predicate LeadsOn(parts: seq<Trace>, n: nat, current: string)
      requires n < |parts|
    {
      Explained(parts, n) && FallsBackTo(parts, n, if n + 1 < |parts| then Entered(parts)[n + 1] else current)
    }

    ghost predicate LeadsTo(parts: seq<Trace>, current: string) {
      && roots != [] && (if parts == [] then current == roots[0] else FirstModel(parts, roots[0]))
      && forall n :: 0 <= n < |parts| ==> LeadsOn(parts, n, current)
    }

    ghost predicate FirstModel(parts: seq<Trace>, id: string)
      requires parts != []
    {
      Entered(parts)[0] == id
    }

    // How a run ends: aborted at the top of a turn, or with its last turn.
    ghost predicate EndsWith(parts: seq<Trace>, count: nat, outcome: Outcome) {
      if outcome.Refused? then roots == [] && parts == [] && count == 0
      else if count == |parts| + 1 then
        outcome == AbortedRun && turns(|parts|).aborts.atTop && exists id :: LeadsTo(parts, id)
      else
        && count == |parts| && parts != []
        && var last := |parts| - 1;
        && LeadsTo(parts[..last], Entered(parts)[last]) && Explained(parts, last)
        && EndsTurn(parts, outcome)
    }

    ghost predicate EndsTurn(parts: seq<Trace>, outcome: Outcome)
      requires parts != []
    {
      var last := |parts| - 1;
      && IsPart(catalog, parts[last])
      && var c, before := CaseAt(parts, last), Flat(parts[..last]);
      var aborted, health := turns(last).aborts.inSearch, turns(last).health;
      && (outcome.Served? <==> c.IsAnswered())
      && (outcome.Served? ==> outcome.id == Entered(parts)[last])
      && (outcome.Uncertain? <==> c.IsUncertain())
      && (outcome.AbortedRun? <==> c.IsStopped() || (c.Fails() && SearchAborted(before, aborted)))
      && (outcome.Exhausted? <==>
            c.Fails() && NobodyTakesOver(catalog, request, policy, roots, parts, before, aborted, health))
    }
  }
}
