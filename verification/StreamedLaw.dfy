// What a streamed run has done: what an attempt delivers and how it fails, when it is
// repeated, and when a turn returns, throws or passes on to another model, all in terms of
// the oracle values of the turn and of the trace before it.  The loop in StreamedRun is
// proved against these definitions.
module StreamedLaw {
  import opened Wrappers
  import opened Catalog
  import opened Fallback
  import opened RunTrace
  import opened RunSteps
  import opened Exhaustion
  import opened Succession

  // What one attempt gets from its provider: a live stream that ends normally, by an
  // error or by an abort, or a buffered result.
  datatype Ending = Finished | Broken(error: ProviderError) | Cut

  datatype Response =
    | Live(events: seq<StreamEvent>, ending: Ending)
    | Buffered(toolCalls: seq<string>, isError: bool)
    | InvalidResult
    | Refusal(error: ProviderError)
    | AbortedCall

  // One attempt, and the points at which the request may be found aborted: before it,
  // after its failure, and before its repetition.
  datatype Try = Try(
    aborted: bool, response: Response, abortedAfter: bool, retryAllowed: bool, abortedAtRetry: bool)

  datatype Turn = Turn(skip: Option<SkipKind>, first: Try, retry: Try, abortedSearch: bool, health: Health)

  // Facts about the configured providers.
  datatype Providers = Providers(failFast: set<string>, openAiCompatible: set<string>)

  // Returned normally, threw, or threw because the search found no other model.
  datatype Outcome = Returned | Threw | Exhausted

  // Everything but an empty delta.
  ghost predicate Matters(event: StreamEvent) {
    event != OutputDelta("") && event != ReasoningDelta("")
  }

  ghost predicate MattersUpToError(events: seq<StreamEvent>) {
    exists i :: 0 <= i < |events| && Matters(events[i]) && Done(true) !in events[..i + 1]
  }

  // The events that an attempt passes on: a live stream up to a terminal event that reports
  // an error, or the calls of a buffered result and its terminal event.
  ghost predicate IsRelayOf(response: Response, events: seq<StreamEvent>) {
    match response
    case Live(all, _) =>
      && events <= all && Done(true) !in events
      && (|events| < |all| ==> all[|events|] == Done(true))
    case Buffered(toolCalls, isError) =>
      && |events| == |toolCalls| + 1 && events[|toolCalls|] == Done(isError)
      && forall i :: 0 <= i < |toolCalls| ==> events[i] == ToolCall(toolCalls[i])
    case _ => events == []
  }

  // A model that is asked to serve a request, and what its attempts come to.
  datatype Model = Model(binding: Binding, request: Request, providers: Providers) {
    // The model can serve the request at all.
    ghost predicate Supports() {
      if request.kind == ImagesGenerations then ImageGeneration in binding.capabilities
      else
        && (request.kind == ChatCompletions ==> Chat in binding.capabilities)
        && (request.kind == ResponsesApi ==> Responses in binding.capabilities)
        && (request.requiresTools ==> Tools in binding.capabilities)
    }

    ghost predicate Succeeds(t: Try) {
      && Supports()
      && (|| t.response.Buffered?
          || (t.response.Live? && t.response.ending.Finished?
              && Done(false) in t.response.events && Done(true) !in t.response.events))
    }

    // The request is found aborted while the response comes in.
    ghost predicate IsCut(t: Try) {
      && Supports()
      && (|| t.response.AbortedCall?
          || (t.response.Live? && t.response.ending.Cut? && Done(true) !in t.response.events))
    }

    ghost predicate Fails(t: Try) {
      !Succeeds(t) && !IsCut(t)
    }

    // The error of a failure: the provider's own, or one of the gateway, which says nothing.
    ghost function Error(t: Try): ProviderError {
      if Supports() && t.response.Refusal? then t.response.error
      else if Supports() && t.response.Live? && Done(true) !in t.response.events && t.response.ending.Broken? then
        t.response.ending.error
      else ProviderError(false, false, false, false)
    }

    // Something that matters was delivered.
    ghost predicate Shows(t: Try) {
      Supports() && (t.response.Buffered? || (t.response.Live? && MattersUpToError(t.response.events)))
    }

    // The failure ends the run: something was delivered, or the request may not be replayed.
    ghost predicate IsFinal(t: Try) {
      || Shows(t)
      || (binding.providerId !in providers.openAiCompatible && !(Error(t).upstream && Error(t).unavailable))
      || !request.replaySafe
      || Error(t).uncertain
    }

    ghost predicate FailsOnAuth(t: Try) {
      Error(t).upstream && Error(t).auth && binding.providerId in providers.failFast
    }

    ghost predicate Records(t: Try) {
      Fails(t) && !t.abortedAfter && FailsOnAuth(t)
    }
  }

  // One turn: its model and oracle values, the calls of the run before it, whether the
  // emergency model had been selected, and the calls made in it.
  datatype Case = Case(model: Model, policy: Policy, turn: Turn, callsBefore: nat, emergency: bool, made: nat) {
    ghost predicate IsCalled() {
      turn.skip.None? && !turn.first.aborted && Room(policy, callsBefore)
    }

    // The first failure is one that may be tried again.
    ghost predicate RetryIsDue() {
      && IsCalled() && model.Fails(turn.first) && !turn.first.abortedAfter && !model.IsFinal(turn.first)
      && !emergency && model.Error(turn.first).upstream && turn.first.retryAllowed
    }

    ghost predicate RetryIsAllowed() {
      RetryIsDue() && !turn.first.abortedAtRetry && policy.allowFallback && Room(policy, callsBefore + 1)
    }

    ghost predicate IsCalledAgain() {
      RetryIsAllowed() && !turn.retry.aborted
    }

    ghost predicate CallsAreRight() {
      made <= 2 && (made >= 1 <==> IsCalled()) && (made == 2 <==> IsCalledAgain())
    }

    ghost function Last(): Try {
      if made == 2 then turn.retry else turn.first
    }

    // ---- how the turn ends ----

    // Aborted, cut short or out of budget.
    ghost predicate IsStopped() {
      && turn.skip.None?
      && (|| made == 0
          || model.IsCut(Last())
          || (model.Fails(Last()) && Last().abortedAfter)
          || (made == 1 && RetryIsDue() && turn.first.abortedAtRetry)
          || (made == 1 && RetryIsAllowed()))
    }

    ghost predicate Returns() {
      turn.skip.None? && made >= 1 && model.Succeeds(Last())
    }

    ghost predicate Throws() {
      IsStopped() || (turn.skip.None? && made >= 1 && model.Fails(Last()) && model.IsFinal(Last()))
    }

    // Skipped, or the last attempt failed in a way that allows for another model.
    ghost predicate PassesOn() {
      turn.skip.Some? || (!IsStopped() && model.Fails(Last()) && !model.IsFinal(Last()))
    }

    ghost predicate RecordsAuthFailure() {
      || turn.skip == Some(SkipAuth)
      || (made >= 1 && model.Records(turn.first))
      || (made == 2 && model.Records(turn.retry))
    }

    // The model is called again although its provider was just recorded as auth-failed.
    ghost predicate RepeatsAfterAuthFailure() {
      IsCalledAgain() && model.FailsOnAuth(turn.first)
    }
  }

  // The events of a trace that reach the consumer, in order.
  function Drained(log: Trace): seq<StreamEvent> {
    if log == [] then []
    else Drained(log[..|log| - 1]) + if log[|log| - 1].Yield? then [log[|log| - 1].event] else []
  }

  // What the attempts of the turn deliver, one after the other.
  ghost predicate Delivers(c: Case, part: Trace) {
    exists a, b ::
      && Drained(part) == a + b
      && (if c.made >= 1 && c.model.Supports() then IsRelayOf(c.turn.first.response, a) else a == [])
      && (if c.made == 2 && c.model.Supports() then IsRelayOf(c.turn.retry.response, b) else b == [])
  }

  ghost function CaseOf(
    catalog: Catalog, request: Request, policy: Policy, providers: Providers, turn: Turn, before: Trace, part: Trace)
    : Case
    requires IsPart(catalog, part)
  {
    Case(
      Model(catalog.models[part[0].id], request, providers), policy, turn, DispatchCount(before), EmergencyIn(before),
      DispatchCount(part))
  }

  // The part of the trace that a turn adds: the calls that are due, what they deliver, and
  // an auth failure of its provider when it is one.
  ghost predicate TurnExplained(
    catalog: Catalog, request: Request, policy: Policy, providers: Providers, turn: Turn, before: Trace, part: Trace)
  {
    && IsPart(catalog, part)
    && var c := CaseOf(catalog, request, policy, providers, turn, before, part);
    && c.CallsAreRight() && Delivers(c, part)
    && (forall e :: e in part && Sends(e) ==> e.id == part[0].id)
    && (AuthRetry(part[0].id) in part <==> c.RepeatsAfterAuthFailure())
    && (forall p :: AuthFailed(p) in part <==> p == c.model.binding.providerId && c.RecordsAuthFailure())
  }

  // Everything a streamed run is told.
  datatype Setting = Setting(
    catalog: Catalog, request: Request, policy: Policy, providers: Providers, modelId: string, turns: nat -> Turn)
  {
    ghost predicate Explained(parts: seq<Trace>, n: nat)
      requires n < |parts|
    {
      TurnExplained(catalog, request, policy, providers, turns(n), Flat(parts[..n]), parts[n])
    }

    ghost function CaseAt(parts: seq<Trace>, n: nat): Case
      requires n < |parts| && IsPart(catalog, parts[n])
    {
      CaseOf(catalog, request, policy, providers, turns(n), Flat(parts[..n]), parts[n])
    }

    // The n-th turn passed on, and this model was found to take over.
    ghost predicate FallsBackTo(parts: seq<Trace>, n: nat, id: string)
      requires n < |parts|
    {
      && IsPart(catalog, parts[n]) && CaseAt(parts, n).PassesOn()
      && TakesOver(
           catalog, request, policy, [modelId], parts[..n + 1], Flat(parts[..n]), turns(n).abortedSearch,
           turns(n).health, id)
    }

    ghost predicate LeadsOn(parts: seq<Trace>, n: nat, current: string)
      requires n < |parts|
    {
      Explained(parts, n) && FallsBackTo(parts, n, if n + 1 < |parts| then Entered(parts)[n + 1] else current)
    }

    // Every turn passed on and was followed by the model that takes over; current is the next.
    ghost predicate LeadsTo(parts: seq<Trace>, current: string) {
      && (if parts == [] then current == modelId else FirstModel(parts))
      && forall n :: 0 <= n < |parts| ==> LeadsOn(parts, n, current)
    }

    ghost predicate FirstModel(parts: seq<Trace>)
      requires parts != []
    {
      Entered(parts)[0] == modelId
    }

    // The last turn decides the outcome.
    ghost predicate EndsTurn(parts: seq<Trace>, outcome: Outcome)
      requires parts != []
    {
      var last := |parts| - 1;
      && IsPart(catalog, parts[last])
      && var c, before := CaseAt(parts, last), Flat(parts[..last]);
      var aborted, health := turns(last).abortedSearch, turns(last).health;
      && (outcome.Returned? <==> c.Returns())
      && (outcome.Threw? <==> c.Throws() || (c.PassesOn() && SearchAborted(before, aborted)))
      && (outcome.Exhausted? <==>
            c.PassesOn() && NobodyTakesOver(catalog, request, policy, [modelId], parts, before, aborted, health))
    }

    ghost predicate EndsWith(parts: seq<Trace>, outcome: Outcome) {
      if parts == [] then outcome == Threw && (modelId !in catalog.models || modelId == AUTO_MODEL_ID)
      else
        var last := |parts| - 1;
        LeadsTo(parts[..last], Entered(parts)[last]) && Explained(parts, last) && EndsTurn(parts, outcome)
    }

    // The model is called again after the auth failure of its provider was recorded.
    ghost predicate RepeatsIn(parts: seq<Trace>, n: nat, id: string)
      requires n < |parts|
    {
      parts[n] != [] && parts[n][0] == Enter(id) && IsPart(catalog, parts[n])
      && CaseAt(parts, n).RepeatsAfterAuthFailure()
    }
  }
}
