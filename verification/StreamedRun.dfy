// runModelStreamWithin and the consumer loop of runModelStream around it.
module StreamedRun {
  import opened Wrappers
  import opened Catalog
  import opened Ranking
  import opened Fallback
  import opened RunTrace
  import opened RunSteps
  import opened Exhaustion
  import opened Succession
  import opened StreamedLaw
  import opened Sequences

  // ---- delivering ----

  function Calls(toolCalls: seq<string>): seq<StreamEvent> {
    seq(|toolCalls|, i requires 0 <= i < |toolCalls| => ToolCall(toolCalls[i]))
  }

  function Yields(events: seq<StreamEvent>): Trace {
    seq(|events|, i requires 0 <= i < |events| => Yield(events[i]))
  }

  ghost predicate AnyVisible(events: seq<StreamEvent>) {
    exists e :: e in events && Visible(e)
  }

  ghost predicate HasSent(log: Trace) {
    exists e :: e in log && Sends(e)
  }

  method Deliver(catalog: Catalog, request: Request, run: Run, log: Trace, event: StreamEvent)
    returns (run': Run, log': Trace)
    requires Consistent(run, catalog, request, log) && HasSent(log)
    ensures Consistent(run', catalog, request, log') && run' == run.(emitted := run.emitted || Visible(event))
    ensures log' == log + [Yield(event)] && HasSent(log')
  {
    hide Safe, Mirrors, DispatchCount;
    Extend(catalog, request, log, run, Yield(event));
    EventsAfter(log, Yield(event));
    run', log' := run.(emitted := run.emitted || Visible(event)), log + [Yield(event)];
  }

  // Events are yielded one by one until the list ends or reports an error.
  method YieldUpToError(catalog: Catalog, request: Request, run: Run, log: Trace, events: seq<StreamEvent>)
    returns (shown: seq<StreamEvent>, run': Run, log': Trace)
    requires Consistent(run, catalog, request, log) && HasSent(log)
    ensures Consistent(run', catalog, request, log')
    ensures run' == run.(emitted := run.emitted || AnyVisible(shown))
    ensures log' == log + Yields(shown) && HasSent(log')
    ensures shown <= events && Done(true) !in shown && (|shown| < |events| ==> events[|shown|] == Done(true))
  {
    hide Consistent, HasSent;
    run', log', shown := run, log, [];
    while |shown| < |events| && events[|shown|] != Done(true)
      invariant shown <= events && Done(true) !in shown
      invariant Consistent(run', catalog, request, log') && HasSent(log')
      invariant run' == run.(emitted := run.emitted || AnyVisible(shown))
      invariant log' == log + Yields(shown)
    {
      run', log' := Deliver(catalog, request, run', log', events[|shown|]);
      shown := shown + [events[|shown|]];
    }
  }

  // What an attempt delivers and how it ends.
  method Relay(catalog: Catalog, request: Request, run: Run, log: Trace, t: Try, ghost m: Model)
    returns (failure: Option<ProviderError>, shown: seq<StreamEvent>, run': Run, log': Trace)
    requires Consistent(run, catalog, request, log) && HasSent(log) && m.Supports()
    ensures Consistent(run', catalog, request, log')
    ensures IsRelayOf(t.response, shown) && log' == log + Yields(shown)
    ensures run' == run.(emitted := run.emitted || m.Shows(t))
    ensures failure == if m.Fails(t) then Some(m.Error(t)) else None
  {
    hide Consistent, HasSent, Model.Supports;
    run', log', failure, shown := run, log, None, [];
    match t.response
    case Live(events, ending) =>
      shown, run', log' := YieldUpToError(catalog, request, run, log, events);
      VisibleShown(events, shown);
      failure :=
        if Done(true) in events then Some(LOCAL_ERROR)
        else if ending.Finished? && Done(false) !in events then Some(LOCAL_ERROR)
        else if ending.Broken? then Some(ending.error)
        else None;
    case Buffered(toolCalls, isError) =>
      var calls := Calls(toolCalls);
      shown, run', log' := YieldUpToError(catalog, request, run, log, calls);
      assert shown == calls;
      run', log' := Deliver(catalog, request, run', log', Done(isError));
      shown := shown + [Done(isError)];
      assert Done(isError) in shown;
    case InvalidResult => failure := Some(LOCAL_ERROR);
    case Refusal(error) => failure := Some(error);
    case AbortedCall =>
  }

  lemma VisibleShown(events: seq<StreamEvent>, shown: seq<StreamEvent>)
    requires shown <= events && Done(true) !in shown && (|shown| < |events| ==> events[|shown|] == Done(true))
    ensures AnyVisible(shown) <==> MattersUpToError(events)
  {
    if e :| e in shown && Visible(e) {
      var i :| 0 <= i < |shown| && shown[i] == e;
      assert events[..i + 1] == shown[..i + 1];
      assert Matters(events[i]) && Done(true) !in events[..i + 1];
    }
    if i :| 0 <= i < |events| && Matters(events[i]) && Done(true) !in events[..i + 1] {
      assert shown[i] == events[i] && Visible(shown[i]);
    }
  }

  // ---- one attempt ----

  datatype Tried = Succeeded | Failed(error: ProviderError) | Stopped

  // How an attempt that was made ends.
  ghost predicate Tells(tried: Tried, m: Model, t: Try) {
    && (tried.Succeeded? <==> m.Succeeds(t))
    && (tried.Stopped? <==> m.IsCut(t) || (m.Fails(t) && t.abortedAfter))
    && (tried.Failed? ==> tried.error == m.Error(t))
  }

  // What an attempt adds to the trace: the call, what it delivered, and an auth failure.
  function AttemptPart(send: Event, shown: seq<StreamEvent>, records: bool, provider: string): Trace {
    [send] + Yields(shown) + if records then [AuthFailed(provider)] else []
  }

  ghost predicate ShownBy(m: Model, t: Try, shown: seq<StreamEvent>) {
    if m.Supports() then IsRelayOf(t.response, shown) else shown == []
  }

  // A model may be called: for the first time, or for its one retry.
  ghost predicate MayCall(
    catalog: Catalog, request: Request, policy: Policy, binding: Binding, run: Run, log: Trace, again: bool)
  {
    && Consistent(run, catalog, request, log) && !run.emitted && log != []
    && WithinBudget(policy, run.attempts) && (policy.allowFallback || run.attempts == 0)
    && binding.modelId in catalog.models && binding == catalog.models[binding.modelId]
    && binding.modelId in run.visited
    && AuthRetry(binding.modelId) !in log
    && if again then run.emergency.None? && Count(log, Dispatch(binding.modelId)) == 1
       else
         && Dispatch(binding.modelId) !in log && binding.providerId !in run.authFailed
         && (run.emergency.Some? ==> run.emergency == Some(binding.modelId))
  }

  function SendEvent(binding: Binding, run: Run): Event {
    if binding.providerId in run.authFailed then AuthRetry(binding.modelId) else Dispatch(binding.modelId)
  }

  // execution.attempt() and the recording of the call.
  method Call(catalog: Catalog, request: Request, policy: Policy, binding: Binding, again: bool, run: Run, log: Trace)
    returns (run': Run, log': Trace)
    requires MayCall(catalog, request, policy, binding, run, log, again) && Room(policy, run.attempts)
    ensures Consistent(run', catalog, request, log') && WithinBudget(policy, run'.attempts) && HasSent(log')
    ensures run' == After(run, SendEvent(binding, run)) && log' == log + [SendEvent(binding, run)]
  {
    hide Safe, Mirrors, Allowed, DispatchCount, SupportsRequest;
    var send := SendEvent(binding, run);
    if again {
      if send.AuthRetry? {
        MayRetryAfterAuth(catalog, request, log, run, binding.modelId);
      } else {
        MayDispatch(catalog, request, log, run, binding.modelId);
      }
    } else {
      Absent(log, send);
      MayDispatch(catalog, request, log, run, binding.modelId);
    }
    Extend(catalog, request, log, run, send);
    EventsAfter(log, send);
    run', log' := After(run, send), log + [send];
    assert send in log';
  }

  // One attempt and the bookkeeping of its failure.
  method Attempt(
    catalog: Catalog, request: Request, policy: Policy, providers: Providers, binding: Binding, t: Try, again: bool,
    run: Run, log: Trace, ghost m: Model)
    returns (tried: Tried, called: bool, run': Run, log': Trace, shown: seq<StreamEvent>)
    requires MayCall(catalog, request, policy, binding, run, log, again)
    requires m == Model(binding, request, providers)
    ensures Consistent(run', catalog, request, log') && WithinBudget(policy, run'.attempts)
    ensures called <==> !t.aborted && Room(policy, run.attempts)
    ensures
      var send := SendEvent(binding, run);
      if !called then tried == Stopped && run' == run && log' == log && shown == []
      else
        && Tells(tried, m, t) && ShownBy(m, t, shown)
        && log' == log + AttemptPart(send, shown, m.Records(t), binding.providerId)
        && run' == After(run, send).(
             emitted := run.emitted || m.Shows(t),
             authFailed := run.authFailed + if m.Records(t) then {binding.providerId} else {})
  {
    hide Consistent, WithinBudget, Model.Fails, Model.Shows, Model.Error, IsRelayOf, HasSent, MayCall;
    tried, called, run', log', shown := Stopped, false, run, log, [];
    BudgetFacts(catalog, request, policy, binding, run, log, again);
    if !t.aborted && policy.CanAttempt(run.attempts) {
      called := true;
      run', log' := Call(catalog, request, policy, binding, again, run, log);
      var failure := Some(LOCAL_ERROR);
      if SupportsRequest(binding, request) {
        failure, shown, run', log' := Relay(catalog, request, run', log', t, m);
      } else {
        Unsupported(m, t);
      }
      Ends(m, t);
      if failure.None? {
        tried := if t.response.AbortedCall? || (t.response.Live? && t.response.ending.Cut?) then Stopped else Succeeded;
      } else if !t.abortedAfter {
        tried := Failed(failure.value);
        var error := failure.value;
        if error.upstream && error.auth && binding.providerId in providers.failFast {
          run', log' := RecordAuthFailure(catalog, request, run', log', binding.providerId);
        }
      }
    }
  }

  lemma BudgetFacts(
    catalog: Catalog, request: Request, policy: Policy, binding: Binding, run: Run, log: Trace, again: bool)
    requires MayCall(catalog, request, policy, binding, run, log, again)
    ensures Consistent(run, catalog, request, log) && WithinBudget(policy, run.attempts)
    ensures !run.emitted && (!again ==> binding.providerId !in run.authFailed)
  {
  }

  lemma Unsupported(m: Model, t: Try)
    requires !m.Supports()
    ensures m.Fails(t) && !m.Shows(t) && m.Error(t) == LOCAL_ERROR
  {
  }

  // An attempt fails, succeeds or is cut.
  lemma Ends(m: Model, t: Try)
    ensures !m.Fails(t) ==> m.Supports()
    ensures m.Succeeds(t) <==> !m.Fails(t) && !m.IsCut(t)
    ensures m.IsCut(t) ==> !m.Fails(t)
    ensures !m.Fails(t) ==>
      (m.IsCut(t) <==> t.response.AbortedCall? || (t.response.Live? && t.response.ending.Cut?))
  {
  }

  // ---- one model, with its single retry ----

  // What the attempts of a turn add to the trace.
  function TailOf(
    id: string, provider: string, made: nat, a: seq<StreamEvent>, recordsFirst: bool, again: Event,
    b: seq<StreamEvent>, recordsSecond: bool): Trace
  {
    (if made >= 1 then AttemptPart(Dispatch(id), a, recordsFirst, provider) else [])
      + if made == 2 then AttemptPart(again, b, recordsSecond, provider) else []
  }

  ghost predicate IsTail(c: Case, tail: Trace) {
    exists a, b :: IsTailWith(c, tail, a, b)
  }

  ghost predicate IsTailWith(c: Case, tail: Trace, a: seq<StreamEvent>, b: seq<StreamEvent>) {
    var id, p := c.model.binding.modelId, c.model.binding.providerId;
    && (if c.made >= 1 then ShownBy(c.model, c.turn.first, a) else a == [])
    && (if c.made == 2 then ShownBy(c.model, c.turn.retry, b) else b == [])
    && tail == TailOf(
         id, p, c.made, a, c.model.Records(c.turn.first),
         if c.model.Records(c.turn.first) then AuthRetry(id) else Dispatch(id), b, c.model.Records(c.turn.retry))
  }

  // After a first call that was not a retry, the model has been called exactly once.
  lemma CalledOnce(log: Trace, id: string, tail: Trace)
    requires Dispatch(id) !in log && AuthRetry(id) !in log && forall e :: e in tail ==> !Sends(e)
    ensures Count(log + [Dispatch(id)] + tail, Dispatch(id)) == 1
    ensures AuthRetry(id) !in log + [Dispatch(id)] + tail
  {
    Absent(log, Dispatch(id));
    assert (log + [Dispatch(id)])[..|log|] == log;
    CountsApart(log + [Dispatch(id)], tail, Dispatch(id));
  }

  lemma {:induction false} CountsApart(log: Trace, tail: Trace, e: Event)
    requires e !in tail
    ensures Count(log + tail, e) == Count(log, e)
  {
    if tail == [] {
      assert log + tail == log;
    } else {
      assert (log + tail)[..|log + tail| - 1] == log + tail[..|tail| - 1];
      CountsApart(log, tail[..|tail| - 1], e);
    }
  }

  ghost predicate OutcomeTells(outcome: Option<Outcome>, c: Case) {
    && (outcome.None? <==> c.PassesOn())
    && (outcome == Some(Returned) <==> c.Returns())
    && (outcome == Some(Threw) <==> c.Throws())
  }

  // The first attempt allows for a second one.
  lemma MayCallAgain(
    catalog: Catalog, request: Request, policy: Policy, m: Model, t: Try, run: Run, log: Trace, run': Run, log': Trace,
    shown: seq<StreamEvent>)
    requires MayCall(catalog, request, policy, m.binding, run, log, false) && run.emergency.None?
    requires Consistent(run', catalog, request, log') && WithinBudget(policy, run'.attempts) && policy.allowFallback
    requires run'.visited == run.visited && run'.emergency == run.emergency && !run'.emitted
    requires log' == log + AttemptPart(Dispatch(m.binding.modelId), shown, m.Records(t), m.binding.providerId)
    ensures MayCall(catalog, request, policy, m.binding, run', log', true)
  {
    hide Consistent, WithinBudget, Count, Model.Records;
    var id := m.binding.modelId;
    var tail := log'[|log| + 1..];
    assert log' == log + [Dispatch(id)] + tail;
    CalledOnce(log, id, tail);
  }

  // The failure is final: something was delivered, or the request may not be replayed.
  predicate MustThrow(providers: Providers, request: Request, binding: Binding, error: ProviderError, emitted: bool) {
    || emitted
    || (binding.providerId !in providers.openAiCompatible && !(error.upstream && error.unavailable))
    || !request.replaySafe
    || error.uncertain
  }

  // The result is an outcome, or nothing when another model has to be found.
  method TryModel(
    catalog: Catalog, request: Request, policy: Policy, providers: Providers, binding: Binding, turn: Turn, run: Run,
    log: Trace)
    returns (outcome: Option<Outcome>, run': Run, log': Trace, made: nat)
    requires MayCall(catalog, request, policy, binding, run, log, false) && turn.skip.None?
    ensures Consistent(run', catalog, request, log') && WithinBudget(policy, run'.attempts)
    ensures run' == run.(
      authFailed := run'.authFailed, attempts := run'.attempts, emitted := run'.emitted, authRetried :=
        run'.authRetried)
    ensures run.authFailed <= run'.authFailed && (outcome.None? ==> !run'.emitted)
    ensures
      var c := Case(Model(binding, request, providers), policy, turn, run.attempts, run.emergency.Some?, made);
      log <= log' && c.CallsAreRight() && OutcomeTells(outcome, c) && IsTail(c, log'[|log|..])
  {
    hide Consistent, WithinBudget, MayCall, AttemptPart, IsTail;
    hide Model.Fails, Model.Shows, Model.Error, Model.Records, Model.FailsOnAuth, Model.Succeeds, Model.IsCut, ShownBy;
    ghost var m := Model(binding, request, providers);
    var tried, called, a, b := Stopped, false, [], [];
    BudgetFacts(catalog, request, policy, binding, run, log, false);
    Ends(m, turn.first);
    Ends(m, turn.retry);
    tried, called, run', log', a := Attempt(
      catalog, request, policy, providers, binding, turn.first, false, run, log, m);
    made := if called then 1 else 0;
    ghost var first := log';
    var stopped, error := tried.Stopped?, if tried.Failed? then tried.error else LOCAL_ERROR;
    if tried.Failed? && !MustThrow(providers, request, binding, error, run'.emitted)
      && run'.emergency.None? && error.upstream && turn.first.retryAllowed
    {
      if turn.first.abortedAtRetry {
        stopped := true;
      } else if policy.CanFallback(run'.attempts) {
        MayCallAgain(catalog, request, policy, m, turn.first, run, log, run', log', a);
        tried, called, run', log', b := Attempt(
          catalog, request, policy, providers, binding, turn.retry, true, run', log', m);
        made := if called then 2 else 1;
        stopped, error := tried.Stopped?, if tried.Failed? then tried.error else LOCAL_ERROR;
      }
    }
    outcome :=
      if tried.Succeeded? then Some(Returned)
      else if stopped || MustThrow(providers, request, binding, error, run'.emitted) then Some(Threw)
      else None;
    ghost var c := Case(m, policy, turn, run.attempts, run.emergency.Some?, made);
    TailTold(c, log, log', a, b);
  }

  lemma TailTold(c: Case, log: Trace, log': Trace, a: seq<StreamEvent>, b: seq<StreamEvent>)
    requires c.made <= 2
    requires if c.made >= 1 then ShownBy(c.model, c.turn.first, a) else a == []
    requires if c.made == 2 then ShownBy(c.model, c.turn.retry, b) else b == []
    requires
      var id, p, m := c.model.binding.modelId, c.model.binding.providerId, c.model;
      var one := AttemptPart(Dispatch(id), a, m.Records(c.turn.first), p);
      var again := if m.Records(c.turn.first) then AuthRetry(id) else Dispatch(id);
      var two := AttemptPart(again, b, m.Records(c.turn.retry), p);
      log' == if c.made == 0 then log else if c.made == 1 then log + one else log + one + two
    ensures log <= log' && IsTail(c, log'[|log|..])
  {
    hide AttemptPart, Model.Records, ShownBy;
    assert IsTailWith(c, log'[|log|..], a, b);
  }

  // ---- what a turn adds to the trace ----

  lemma {:induction false} DrainedAdds(a: Trace, b: Trace)
    ensures Drained(a + b) == Drained(a) + Drained(b)
    decreases |b|
  {
    if b == [] {
      assert a + b == a;
    } else {
      assert (a + b)[..|a + b| - 1] == a + b[..|b| - 1];
      DrainedAdds(a, b[..|b| - 1]);
    }
  }

  lemma {:induction false} YieldsOnly(events: seq<StreamEvent>)
    ensures Drained(Yields(events)) == events && DispatchCount(Yields(events)) == 0
  {
    if events != [] {
      var n := |events| - 1;
      assert Yields(events)[..n] == Yields(events[..n]);
      YieldsOnly(events[..n]);
    }
  }

  lemma OneEvent(e: Event)
    ensures DispatchCount([e]) == (if Sends(e) then 1 else 0) && DispatchCount([]) == 0
    ensures Drained([e]) == (if e.Yield? then [e.event] else []) && Drained([]) == []
  {
    assert [e][..0] == [];
  }

  lemma AttemptAdds(send: Event, shown: seq<StreamEvent>, records: bool, provider: string)
    requires Sends(send)
    ensures
      var part := AttemptPart(send, shown, records, provider);
      && DispatchCount(part) == 1 && Drained(part) == shown
      && forall e :: e in part <==>
           e == send || (e.Yield? && e.event in shown) || (records && e == AuthFailed(provider))
  {
    hide DispatchCount, Drained;
    var note := if records then [AuthFailed(provider)] else [];
    OneEvent(send);
    OneEvent(AuthFailed(provider));
    YieldsOnly(shown);
    DispatchesAdd([send], Yields(shown));
    DispatchesAdd([send] + Yields(shown), note);
    DrainedAdds([send], Yields(shown));
    DrainedAdds([send] + Yields(shown), note);
    forall e | e in shown ensures Yield(e) in Yields(shown) {
      var i :| 0 <= i < |shown| && shown[i] == e;
      assert Yields(shown)[i] == Yield(e);
    }
  }

  // What holds of the part of a turn, apart from the model it enters.
  ghost predicate TailExplains(c: Case, tail: Trace) {
    && DispatchCount(tail) == c.made && Delivers(c, tail)
    && (forall e :: e in tail && Sends(e) ==> e.id == c.model.binding.modelId)
    && (AuthRetry(c.model.binding.modelId) in tail <==> c.RepeatsAfterAuthFailure())
    && (forall p :: AuthFailed(p) in tail <==> p == c.model.binding.providerId && c.RecordsAuthFailure())
    && forall e :: e in tail ==> !e.Enter? && !e.Emergency?
  }

  lemma TailOfTheTurn(c: Case, tail: Trace)
    requires c.turn.skip.None? && c.CallsAreRight() && IsTail(c, tail)
    ensures TailExplains(c, tail)
  {
    hide DispatchCount, Drained, AttemptPart, Model.Fails, Model.FailsOnAuth, Model.IsFinal, Model.Error, ShownBy;
    var a, b :| IsTailWith(c, tail, a, b);
    var id, p := c.model.binding.modelId, c.model.binding.providerId;
    var r1, r2 := c.model.Records(c.turn.first), c.model.Records(c.turn.retry);
    var again := if r1 then AuthRetry(id) else Dispatch(id);
    var one := if c.made >= 1 then AttemptPart(Dispatch(id), a, r1, p) else [];
    var two := if c.made == 2 then AttemptPart(again, b, r2, p) else [];
    AttemptAdds(Dispatch(id), a, r1, p);
    AttemptAdds(again, b, r2, p);
    OneEvent(Dispatch(id));
    DispatchesAdd(one, two);
    DrainedAdds(one, two);
    assert Drained(tail) == a + b;
    DeliversBoth(c, tail, a, b);
  }

  lemma DeliversBoth(c: Case, tail: Trace, a: seq<StreamEvent>, b: seq<StreamEvent>)
    requires Drained(tail) == a + b && c.made <= 2
    requires if c.made >= 1 then ShownBy(c.model, c.turn.first, a) else a == []
    requires if c.made == 2 then ShownBy(c.model, c.turn.retry, b) else b == []
    ensures Delivers(c, tail)
  {
    hide Drained, IsRelayOf;
  }

  lemma SkippedTurn(c: Case, tail: Trace)
    requires c.turn.skip.Some? && c.made == 0
    requires tail == if c.turn.skip == Some(SkipAuth) then [AuthFailed(c.model.binding.providerId)] else []
    ensures TailExplains(c, tail) && c.CallsAreRight() && c.PassesOn() && !c.Returns() && !c.Throws()
  {
    OneEvent(AuthFailed(c.model.binding.providerId));
    DeliversBoth(c, tail, [], []);
  }

  lemma PartExplains(
    catalog: Catalog, request: Request, policy: Policy, providers: Providers, turn: Turn, before: Trace, id: string,
    c: Case, tail: Trace)
    requires catalog.Valid() && id in catalog.models && c.CallsAreRight() && TailExplains(c, tail)
    requires c == Case(
      Model(catalog.models[id], request, providers), policy, turn, DispatchCount(before), EmergencyIn(before), c.made)
    ensures
      var part := [Enter(id)] + tail;
      && IsPart(catalog, part) && !EmergencyIn(part)
      && CaseOf(catalog, request, policy, providers, turn, before, part) == c
      && TurnExplained(catalog, request, policy, providers, turn, before, part)
  {
    hide DispatchCount, Drained, Case.CallsAreRight, Case.RepeatsAfterAuthFailure, Case.RecordsAuthFailure, IsRelayOf;
    var part := [Enter(id)] + tail;
    OneEvent(Enter(id));
    DispatchesAdd([Enter(id)], tail);
    DrainedAdds([Enter(id)], tail);
    assert Drained(part) == Drained(tail);
    assert forall e :: e in part <==> e == Enter(id) || e in tail;
    forall k | 1 <= k < |part| ensures !part[k].Enter? {
      assert part[k] == tail[k - 1] && tail[k - 1] in tail;
    }
    SameDelivery(c, part, tail);
  }

  lemma SameDelivery(c: Case, part: Trace, tail: Trace)
    requires Drained(part) == Drained(tail) && Delivers(c, tail)
    ensures Delivers(c, part)
  {
    hide Drained, IsRelayOf;
  }

  // A selection of the emergency model changes nothing about the turn before it.
  lemma ExplainedWithSelection(
    catalog: Catalog, request: Request, policy: Policy, providers: Providers, turn: Turn, before: Trace,
    part: Trace, selected: Trace)
    requires IsPart(catalog, part) && TurnExplained(catalog, request, policy, providers, turn, before, part)
    requires selected == [] || exists x :: selected == [Emergency(x)]
    ensures IsPart(catalog, part + selected)
    ensures CaseOf(catalog, request, policy, providers, turn, before, part + selected) ==
      CaseOf(catalog, request, policy, providers, turn, before, part)
    ensures TurnExplained(catalog, request, policy, providers, turn, before, part + selected)
  {
    hide DispatchCount, Drained, Case.CallsAreRight, Case.RepeatsAfterAuthFailure, Case.RecordsAuthFailure, Delivers;
    if selected == [] {
      assert part + selected == part;
    } else {
      assert selected == [selected[0]];
      OneEvent(selected[0]);
      DispatchesAdd(part, selected);
      DrainedAdds(part, selected);
      var longer := part + selected;
      assert forall e :: e in longer <==> e in part || e == selected[0];
      assert Drained(longer) == Drained(part);
      SameDelivery(CaseOf(catalog, request, policy, providers, turn, before, part), longer, part);
    }
  }

  // ---- the run ----

  datatype Step = Finish(outcome: Outcome) | GoOn(id: string)

  // The loop invariant, at the head of a turn that will enter current.
  ghost predicate AtHead(
    run: Run, catalog: Catalog, request: Request, policy: Policy, log: Trace, modelId: string, current: string)
  {
    && Consistent(run, catalog, request, log) && !run.emitted
    && WithinBudget(policy, run.attempts) && (policy.allowFallback || run.attempts == 0)
    && if log == [] then run == NEW_RUN && current == modelId && current in catalog.models
       else
         && log[0] == Enter(modelId)
         && run.See(catalog, request).Dispatchable(current)
         && if run.emergency.Some? then run.emergency == Some(current)
            else Ready(run.See(catalog, request), run.pending, modelId, [], current)
  }

  lemma Starting(s: Setting)
    requires s.modelId in s.catalog.models
    ensures AtHead(NEW_RUN, s.catalog, s.request, s.policy, [], s.modelId, s.modelId)
    ensures s.LeadsTo([], s.modelId) && Flat([]) == [] && Entered([]) == []
  {
  }

  lemma Entering(
    catalog: Catalog, request: Request, policy: Policy, run: Run, log: Trace, modelId: string, current: string)
    requires Routable(catalog) && AtHead(run, catalog, request, policy, log, modelId, current)
    ensures
      var run', log' := run.(visited := run.visited + [current]), log + [Enter(current)];
      && MayCall(catalog, request, policy, catalog.models[current], run', log', false)
      && log'[0] == Enter(modelId)
    ensures current in catalog.models && current !in run.visited && |run.visited| < |catalog.models|
  {
    hide Allowed, Safe, Mirrors, DispatchCount, Count, Ready;
    MayEnter(catalog, request, log, run, current);
    Extend(catalog, request, log, run, Enter(current));
    EventsAfter(log, Enter(current));
    TurnsAreBounded(run.visited + [current], catalog.models);
  }

  lemma HeadFacts(
    run: Run, catalog: Catalog, request: Request, policy: Policy, log: Trace, modelId: string, current: string)
    requires AtHead(run, catalog, request, policy, log, modelId, current)
    ensures Consistent(run, catalog, request, log) && (log != [] ==> log[0] == Enter(modelId))
    ensures (EmergencyIn(log) <==> run.emergency.Some?) && run.attempts == DispatchCount(log)
    ensures if run.visited == [] then current == modelId && run.pending == []
      else run.emergency.None? ==> Ready(run.See(catalog, request), run.pending, modelId, [], current)
  {
    hide Safe, Count, Ready, SupportsRequest, WithinBudget, DispatchCount;
    MirroredCount(log, run);
    EmergencyMirrored(log, run);
    FirstIsVisited(log, run);
    assert log == [] ==> run.visited == [];
  }

  lemma FirstIsVisited(log: Trace, run: Run)
    requires Mirrors(log, run)
    ensures log != [] ==> run.visited != []
  {
  }

  // Skip or try the model of this turn.
  method SkipOrTry(
    catalog: Catalog, request: Request, policy: Policy, providers: Providers, binding: Binding, turn: Turn, run: Run,
    log: Trace)
    returns (outcome: Option<Outcome>, run': Run, log': Trace, made: nat)
    requires MayCall(catalog, request, policy, binding, run, log, false)
    ensures Consistent(run', catalog, request, log') && WithinBudget(policy, run'.attempts)
    ensures run' == run.(
      authFailed := run'.authFailed, attempts := run'.attempts, emitted := run'.emitted, authRetried :=
        run'.authRetried)
    ensures run.authFailed <= run'.authFailed && (outcome.None? ==> !run'.emitted)
    ensures
      var c := Case(Model(binding, request, providers), policy, turn, run.attempts, run.emergency.Some?, made);
      log <= log' && c.CallsAreRight() && OutcomeTells(outcome, c) && TailExplains(c, log'[|log|..])
  {
    hide Consistent, WithinBudget, TailExplains, Case.CallsAreRight, IsTail, OutcomeTells;
    BudgetFacts(catalog, request, policy, binding, run, log, false);
    if turn.skip.None? {
      outcome, run', log', made := TryModel(catalog, request, policy, providers, binding, turn, run, log);
      TailOfTheTurn(
        Case(Model(binding, request, providers), policy, turn, run.attempts, run.emergency.Some?, made), log'[|log|..]);
    } else {
      run', log', outcome, made := run, log, None, 0;
      if turn.skip == Some(SkipAuth) {
        run', log' := RecordAuthFailure(catalog, request, run, log, binding.providerId);
      }
      SkipTold(
        Case(Model(binding, request, providers), policy, turn, run.attempts, run.emergency.Some?, 0), log'[|log|..]);
    }
  }

  lemma SkipTold(c: Case, tail: Trace)
    requires c.turn.skip.Some? && c.made == 0
    requires tail == if c.turn.skip == Some(SkipAuth) then [AuthFailed(c.model.binding.providerId)] else []
    ensures TailExplains(c, tail) && c.CallsAreRight() && OutcomeTells(None, c)
  {
    SkippedTurn(c, tail);
  }

  // The first half of a turn: enter the model and skip or try it.  The result is an
  // outcome, or nothing when the loop has to look for another model.
  method EnterAndTry(s: Setting, turn: Turn, run: Run, log: Trace, current: string)
    returns (outcome: Option<Outcome>, run': Run, log': Trace, part: Trace)
    requires Routable(s.catalog) && AtHead(run, s.catalog, s.request, s.policy, log, s.modelId, current)
    ensures Consistent(run', s.catalog, s.request, log') && WithinBudget(s.policy, run'.attempts)
    ensures run' == run.(
      visited := run.visited + [current], authFailed := run'.authFailed, attempts := run'.attempts,
      emitted := run'.emitted, authRetried := run'.authRetried)
    ensures run.authFailed <= run'.authFailed && (outcome.None? ==> !run'.emitted)
    ensures log' == log + part && log' != [] && log'[0] == Enter(s.modelId)
    ensures IsPart(s.catalog, part) && part[0] == Enter(current) && !EmergencyIn(part)
    ensures TurnExplained(s.catalog, s.request, s.policy, s.providers, turn, log, part)
    ensures OutcomeTells(outcome, CaseOf(s.catalog, s.request, s.policy, s.providers, turn, log, part))
  {
    hide AtHead, Safe, Mirrors, DispatchCount, Consistent, WithinBudget, TurnExplained, EmergencyIn, MayCall;
    hide TailExplains, Case.CallsAreRight, OutcomeTells;
    HeadFacts(run, s.catalog, s.request, s.policy, log, s.modelId, current);
    Entering(s.catalog, s.request, s.policy, run, log, s.modelId, current);
    var binding, entered := s.catalog.models[current], run.(visited := run.visited + [current]);
    var made;
    outcome, run', log', made := SkipOrTry(
      s.catalog, s.request, s.policy, s.providers, binding, turn, entered, log + [Enter(current)]);
    ghost var tail := log'[|log| + 1..];
    ghost var c := Case(
      Model(binding, s.request, s.providers), s.policy, turn, DispatchCount(log), EmergencyIn(log), made);
    part := log'[|log|..];
    assert part == [Enter(current)] + tail;
    PartExplains(s.catalog, s.request, s.policy, s.providers, turn, log, current, c, tail);
  }

  // A run that gave up although fallback was still allowed has left nothing.
  ghost predicate GaveUpRightly(
    catalog: Catalog, request: Request, policy: Policy, outcome: Outcome, run: Run, modelId: string)
  {
    outcome == Exhausted && run.emergency.None? && policy.CanFallback(run.attempts) ==>
      NoneLeft(run.See(catalog, request), [modelId])
  }

  lemma NewPart(parts: seq<Trace>, part: Trace, current: string)
    requires part != [] && part[0] == Enter(current)
    ensures Flat(parts + [part]) == Flat(parts) + part
    ensures |Entered(parts)| == |parts| && Entered(parts + [part]) == Entered(parts) + [current]
    ensures (parts + [part])[..|parts|] == parts && (parts + [part])[..|parts| + 1] == parts + [part]
  {
    hide Flat;
    FlatOneMore(parts, part);
  }

  // The run ends with the model that was tried.
  lemma EndsByTrying(s: Setting, parts: seq<Trace>, part: Trace, outcome: Outcome)
    requires IsPart(s.catalog, part) && outcome != Exhausted
    requires OutcomeTells(
      Some(outcome), CaseOf(s.catalog, s.request, s.policy, s.providers, s.turns(|parts|), Flat(parts), part))
    ensures s.EndsTurn(parts + [part], outcome)
  {
    hide Case.PassesOn, Case.Throws, Case.Returns, Flat, DispatchCount, NobodyTakesOver, SearchAborted, CaseOf;
    NewPart(parts, part, part[0].id);
    var all := parts + [part];
    assert s.CaseAt(all, |parts|) ==
      CaseOf(s.catalog, s.request, s.policy, s.providers, s.turns(|parts|), Flat(parts), part);
  }

  // The run ends because no other model is found.
  lemma EndsBySearch(s: Setting, parts: seq<Trace>, part: Trace, outcome: Outcome)
    requires IsPart(s.catalog, part)
    requires OutcomeTells(
      None, CaseOf(s.catalog, s.request, s.policy, s.providers, s.turns(|parts|), Flat(parts), part))
    requires
      var aborted, health := s.turns(|parts|).abortedSearch, s.turns(|parts|).health;
      if SearchAborted(Flat(parts), aborted) then outcome == Threw
      else
        && outcome == Exhausted
        && NobodyTakesOver(
             s.catalog, s.request, s.policy, [s.modelId], parts + [part], Flat(parts), aborted, health)
    ensures s.EndsTurn(parts + [part], outcome)
  {
    hide Case.PassesOn, Case.Throws, Case.Returns, Flat, DispatchCount, CaseOf;
    NewPart(parts, part, part[0].id);
    var all := parts + [part];
    assert s.CaseAt(all, |parts|) ==
      CaseOf(s.catalog, s.request, s.policy, s.providers, s.turns(|parts|), Flat(parts), part);
  }

  // One turn: skip or try the current model, then look for another one if need be.  The
  // part it adds to the trace explains what was called and delivered.
  method TakeTurn(s: Setting, n: nat, run: Run, log: Trace, ghost parts: seq<Trace>, current: string)
    returns (step: Step, run': Run, log': Trace, part: Trace)
    requires Routable(s.catalog) && AtHead(run, s.catalog, s.request, s.policy, log, s.modelId, current)
    requires log == Flat(parts) && run.visited == Entered(parts) && n == |parts|
    ensures Consistent(run', s.catalog, s.request, log') && WithinBudget(s.policy, run'.attempts)
    ensures log' != [] && log'[0] == Enter(s.modelId)
    ensures step.GoOn? ==> AtHead(run', s.catalog, s.request, s.policy, log', s.modelId, step.id)
    ensures step.Finish? ==> GaveUpRightly(s.catalog, s.request, s.policy, step.outcome, run', s.modelId)
    ensures log' == Flat(parts + [part]) && run'.visited == run.visited + [current] == Entered(parts + [part])
    ensures part != [] && part[0] == Enter(current) && s.Explained(parts + [part], n)
    ensures step.GoOn? ==> s.FallsBackTo(parts + [part], n, step.id)
    ensures step.Finish? ==> s.EndsTurn(parts + [part], step.outcome)
  {
    hide AtHead, Safe, Mirrors, DispatchCount, Consistent, WithinBudget, TakesOver, NobodyTakesOver, NoneLeft;
    hide TurnExplained, EmergencyIn, Flat, Entered, OutcomeTells, Setting.EndsTurn;
    HeadFacts(run, s.catalog, s.request, s.policy, log, s.modelId, current);
    var outcome;
    outcome, run', log', part := EnterAndTry(s, s.turns(n), run, log, current);
    NewPart(parts, part, current);
    if outcome.Some? {
      step := Finish(outcome.value);
      OnlyTried(outcome.value, CaseOf(s.catalog, s.request, s.policy, s.providers, s.turns(n), Flat(parts), part));
      EndsByTrying(s, parts, part, outcome.value);
    } else {
      step, run', log', part := LookFurther(s, n, run, run', log', parts, part);
      NewPart(parts, part, current);
    }
  }

  lemma OnlyTried(outcome: Outcome, c: Case)
    requires OutcomeTells(Some(outcome), c)
    ensures outcome != Exhausted
  {
  }

  // The second half of a turn that passed on: find the next model.
  method LookFurther(
    s: Setting, n: nat, ghost before: Run, run: Run, log: Trace, ghost parts: seq<Trace>, part: Trace)
    returns (step: Step, run': Run, log': Trace, part': Trace)
    requires Routable(s.catalog) && n == |parts|
    requires IsPart(s.catalog, part) && !EmergencyIn(part) && log == Flat(parts) + part && log[0] == Enter(s.modelId)
    requires if before.visited == [] then part[0].id == s.modelId && before.pending == []
      else before.emergency.None? ==>
        Ready(before.See(s.catalog, s.request), before.pending, s.modelId, [], part[0].id)
    requires before.visited == Entered(parts) && before.authFailed <= run.authFailed
    requires run == before.(
      visited := before.visited + [part[0].id], authFailed := run.authFailed, attempts := run.attempts,
      emitted := run.emitted, authRetried := run.authRetried)
    requires Consistent(run, s.catalog, s.request, log) && WithinBudget(s.policy, run.attempts) && !run.emitted
    requires EmergencyIn(Flat(parts)) <==> before.emergency.Some?
    requires TurnExplained(s.catalog, s.request, s.policy, s.providers, s.turns(n), Flat(parts), part)
    requires OutcomeTells(None, CaseOf(s.catalog, s.request, s.policy, s.providers, s.turns(n), Flat(parts), part))
    ensures Consistent(run', s.catalog, s.request, log') && WithinBudget(s.policy, run'.attempts)
    ensures part <= part' && log' == Flat(parts) + part' && log' != [] && log'[0] == Enter(s.modelId)
    ensures run'.visited == run.visited
    ensures step.Finish? ==> GaveUpRightly(s.catalog, s.request, s.policy, step.outcome, run', s.modelId)
    ensures step.GoOn? ==> AtHead(run', s.catalog, s.request, s.policy, log', s.modelId, step.id)
    ensures s.Explained(parts + [part'], n)
    ensures step.GoOn? ==> s.FallsBackTo(parts + [part'], n, step.id)
    ensures step.Finish? ==> s.EndsTurn(parts + [part'], step.outcome)
  {
    hide Safe, Mirrors, DispatchCount, Consistent, TakesOver, NobodyTakesOver, NoneLeft, Ready;
    hide TurnExplained, EmergencyIn, Flat, Case.PassesOn, Case.Throws, Case.Returns, Setting.EndsTurn;
    var binding := s.catalog.models[part[0].id];
    var next;
    ghost var longer;
    assert [s.modelId] + [] == [s.modelId];
    NewPart(parts, part, part[0].id);
    next, run', log', longer := FindSuccessor(
      s.catalog, s.request, s.policy, binding, [], s.turns(n).abortedSearch, s.turns(n).health, before, run,
      log, s.modelId, parts, part);
    part' := part + log'[|log|..];
    assert part' == longer;
    NewPart(parts, part', part[0].id);
    ExplainedWithSelection(
      s.catalog, s.request, s.policy, s.providers, s.turns(n), Flat(parts), part, longer[|part|..]);
    step := match next
      case Aborted => Finish(Threw)
      case NoModel => Finish(Exhausted)
      case Found(id) => GoOn(id);
    if step.Finish? {
      EndsBySearch(s, parts, part', step.outcome);
    }
  }

  // ---- what holds of every streamed run ----

  // Some terminal event was delivered.
  ghost predicate DeliveredDone(log: Trace) {
    Yield(Done(false)) in log || Yield(Done(true)) in log
  }

  // What holds of every streamed run: its trace is safe and has at most one turn per
  // model, the budget is kept, it returns only after a done event, it gives up only when
  // nothing dispatchable is left within reach, and an auth-failed provider is called
  // again exactly in the turns whose first failure is one of auth that is also due for a
  // retry.  Turn by turn it made the calls that were due and passed on what they
  // delivered, every turn but the last was followed by the model that takes over, and the
  // last one decides whether the run returned, threw or was exhausted.
  ghost predicate GoodStream(
    s: Setting, outcome: Outcome, log: Trace, order: seq<string>, last: View, parts: seq<Trace>)
  {
    && Safe(s.catalog, s.request, log)
    && |order| <= |s.catalog.models|
    && WithinBudget(s.policy, DispatchCount(log))
    && (log != [] ==> log[0] == Enter(s.modelId))
    && (outcome == Returned ==> DeliveredDone(log))
    && (forall id :: Enter(id) in log <==> id in order)
    && (outcome == Exhausted && !EmergencyIn(log) && s.policy.CanFallback(DispatchCount(log)) ==>
          NoneLeft(last, [s.modelId]))
    && (forall id :: AuthRetry(id) in log <==> SomeTurnRepeats(s, parts, id))
    && log == Flat(parts) && order == Entered(parts) && last == Known(s.catalog, s.request, parts)
    && s.EndsWith(parts, outcome)
  }

  ghost predicate SomeTurnRepeats(s: Setting, parts: seq<Trace>, id: string) {
    exists n :: 0 <= n < |parts| && s.RepeatsIn(parts, n, id)
  }

  // Every part of a finished run is explained.
  lemma AllExplained(s: Setting, parts: seq<Trace>, outcome: Outcome)
    requires s.EndsWith(parts, outcome)
    ensures forall n :: 0 <= n < |parts| ==> s.Explained(parts, n)
  {
    hide TurnExplained, Flat;
    forall n | 0 <= n < |parts| ensures s.Explained(parts, n) {
      var last := |parts| - 1;
      if n < last {
        assert s.LeadsOn(parts[..last], n, Entered(parts)[last]);
        assert parts[..last][..n] == parts[..n] && parts[..last][n] == parts[n];
      }
    }
  }

  lemma {:induction false} FlatMembers(parts: seq<Trace>, e: Event)
    ensures e in Flat(parts) <==> exists n :: 0 <= n < |parts| && e in parts[n]
  {
    if parts != [] {
      var front := parts[..|parts| - 1];
      FlatMembers(front, e);
      assert forall n :: 0 <= n < |front| ==> front[n] == parts[n];
      assert e in Flat(parts) <==> e in Flat(front) || e in parts[|parts| - 1];
    }
  }

  lemma RepeatsExplained(s: Setting, parts: seq<Trace>, id: string)
    requires forall n :: 0 <= n < |parts| ==> s.Explained(parts, n)
    ensures AuthRetry(id) in Flat(parts) <==> SomeTurnRepeats(s, parts, id)
  {
    hide Flat, Delivers, Case.CallsAreRight, Case.RepeatsAfterAuthFailure, Case.RecordsAuthFailure;
    FlatMembers(parts, AuthRetry(id));
    forall n | 0 <= n < |parts| ensures AuthRetry(id) in parts[n] <==> s.RepeatsIn(parts, n, id) {
      assert s.Explained(parts, n);
      assert parts[n][0] == Enter(parts[n][0].id);
      assert AuthRetry(id) in parts[n] ==> Sends(AuthRetry(id)) && id == parts[n][0].id;
    }
  }

  // The last attempt of a turn that returns has delivered a terminal event.
  lemma ReturnDelivers(c: Case, part: Trace)
    requires c.Returns() && c.CallsAreRight() && Delivers(c, part)
    ensures Done(false) in Drained(part) || Done(true) in Drained(part)
  {
    hide Drained;
    var a, b :| Drained(part) == a + b
      && (if c.made >= 1 && c.model.Supports() then IsRelayOf(c.turn.first.response, a) else a == [])
      && (if c.made == 2 && c.model.Supports() then IsRelayOf(c.turn.retry.response, b) else b == []);
    RelayOfSuccess(c.Last().response, if c.made == 2 then b else a);
  }

  lemma RelayOfSuccess(response: Response, events: seq<StreamEvent>)
    requires IsRelayOf(response, events)
    requires response.Buffered? || (response.Live? && Done(false) in response.events && Done(true) !in response.events)
    ensures Done(false) in events || Done(true) in events
  {
    if response.Live? {
      assert events == response.events;
    } else {
      assert events[|response.toolCalls|] in events;
    }
  }

  lemma ReturnedIsDelivered(s: Setting, parts: seq<Trace>)
    requires s.EndsWith(parts, Returned)
    ensures DeliveredDone(Flat(parts))
  {
    hide Flat, Drained, Delivers, NobodyTakesOver, Setting.LeadsTo, Case.CallsAreRight, Case.Returns, Case.PassesOn;
    hide Case.Throws;
    var last := |parts| - 1;
    ReturnDelivers(s.CaseAt(parts, last), parts[last]);
    DrainedMembers(parts[last], Done(false));
    DrainedMembers(parts[last], Done(true));
    FlatMembers(parts, Yield(Done(false)));
    FlatMembers(parts, Yield(Done(true)));
  }

  lemma TraceTells(log: Trace, run: Run)
    requires Mirrors(log, run)
    ensures run.attempts == DispatchCount(log) && (run.emergency.Some? <==> EmergencyIn(log))
    ensures forall id :: Enter(id) in log <==> id in run.visited
  {
    EmergencyMirrored(log, run);
    forall id | Enter(id) in log ensures id in run.visited {
      assert Recorded(Enter(id), run);
    }
  }

  lemma Concluded(s: Setting, outcome: Outcome, run: Run, log: Trace, parts: seq<Trace>)
    requires Consistent(run, s.catalog, s.request, log) && WithinBudget(s.policy, run.attempts)
    requires log != [] && log[0] == Enter(s.modelId)
    requires GaveUpRightly(s.catalog, s.request, s.policy, outcome, run, s.modelId)
    requires log == Flat(parts) && run.visited == Entered(parts) && s.EndsWith(parts, outcome)
    ensures GoodStream(s, outcome, log, run.visited, run.See(s.catalog, s.request), parts)
  {
    hide Safe, NoneLeft, EmergencyIn, Mirrors, Setting.EndsWith, Setting.Explained, Flat, Entered, AuthFailures;
    hide DeliveredDone, SomeTurnRepeats, WithinBudget, DispatchCount;
    TurnsAreBounded(run.visited, s.catalog.models);
    TraceTells(log, run);
    FailuresMirrored(log, run);
    AllExplained(s, parts, outcome);
    forall id ensures AuthRetry(id) in log <==> SomeTurnRepeats(s, parts, id) {
      RepeatsExplained(s, parts, id);
    }
    if outcome == Returned {
      ReturnedIsDelivered(s, parts);
    }
  }

  lemma NothingCalled(s: Setting)
    requires s.modelId !in s.catalog.models || s.modelId == AUTO_MODEL_ID
    ensures GoodStream(s, Threw, [], [], View(s.catalog.models, s.request, [], {}), [])
  {
    hide NoneLeft;
  }

  // One more turn that passed on, and the model that takes over.
  lemma LeadsOn(s: Setting, parts: seq<Trace>, part: Trace, current: string, next: string)
    requires s.LeadsTo(parts, current) && part != [] && part[0] == Enter(current)
    requires s.Explained(parts + [part], |parts|) && s.FallsBackTo(parts + [part], |parts|, next)
    ensures s.LeadsTo(parts + [part], next)
  {
    hide Setting.Explained, Setting.FallsBackTo;
    var all := parts + [part];
    forall n | 0 <= n < |all| ensures s.LeadsOn(all, n, next) {
      if n < |parts| {
        assert s.LeadsOn(parts, n, current);
        SameTurn(s, parts, part, n);
        assert Entered(all)[n + 1] == if n + 1 < |parts| then Entered(parts)[n + 1] else current;
      }
    }
    assert s.FirstModel(all);
  }

  lemma SameTurn(s: Setting, parts: seq<Trace>, part: Trace, n: nat)
    requires n < |parts|
    ensures s.Explained(parts + [part], n) == s.Explained(parts, n)
    ensures forall id :: s.FallsBackTo(parts + [part], n, id) == s.FallsBackTo(parts, n, id)
  {
    hide TurnExplained, TakesOver, Case.PassesOn, Flat;
    var all := parts + [part];
    assert all[..n] == parts[..n] && all[..n + 1] == parts[..n + 1] && all[n] == parts[n];
  }

  lemma EndsWithLast(s: Setting, parts: seq<Trace>, part: Trace, current: string, outcome: Outcome)
    requires s.LeadsTo(parts, current) && part != [] && part[0] == Enter(current)
    requires s.Explained(parts + [part], |parts|) && s.EndsTurn(parts + [part], outcome)
    ensures s.EndsWith(parts + [part], outcome)
  {
    assert (parts + [part])[..|parts|] == parts;
  }

  // The models are entered in the order given; last is what the run knows at its end.
  method RunStreamWithin(
    catalog: Catalog, request: Request, policy: Policy, providers: Providers, modelId: string, turns: nat -> Turn)
    returns (outcome: Outcome, log: Trace, order: seq<string>, last: View, parts: seq<Trace>)
    requires Routable(catalog)
    ensures GoodStream(Setting(catalog, request, policy, providers, modelId, turns), outcome, log, order, last, parts)
    ensures modelId !in catalog.models ==> outcome == Threw && log == []
    ensures modelId in catalog.models && modelId != AUTO_MODEL_ID ==> order != [] && order[0] == modelId
  {
    hide AtHead, Consistent, WithinBudget, GoodStream, GaveUpRightly, Setting.LeadsTo, Setting.EndsWith;
    hide Setting.EndsTurn, Setting.Explained, Setting.FallsBackTo, Flat, Entered, Members, Routable;
    var s := Setting(catalog, request, policy, providers, modelId, turns);
    outcome, log, order, last, parts := Threw, [], [], NEW_RUN.See(catalog, request), [];
    if modelId == AUTO_MODEL_ID || modelId !in catalog.models {
      NothingCalled(s);
      return;
    }
    var run, current := NEW_RUN, modelId;
    Starting(s);
    while true
      invariant AtHead(run, catalog, request, policy, log, modelId, current)
      invariant log == Flat(parts) && |parts| == |run.visited| && run.visited == Entered(parts)
      invariant s.LeadsTo(parts, current)
      invariant if run.visited == [] then current == modelId else run.visited[0] == modelId
      decreases catalog.models.Keys - Members(run.visited)
    {
      ghost var visited, before := run.visited, parts;
      Entering(catalog, request, policy, run, log, modelId, current);
      var step, part;
      step, run, log, part := TakeTurn(s, |parts|, run, log, parts, current);
      parts := parts + [part];
      match step
      case Finish(done) =>
        EndsWithLast(s, before, part, current, done);
        Concluded(s, done, run, log, parts);
        return done, log, run.visited, run.See(catalog, request), parts;
      case GoOn(id) =>
        FewerUntried(catalog.models.Keys, visited, current);
        LeadsOn(s, before, part, current, id);
        current := id;
    }
  }

  // A run with such a second call: one model of a provider that fails fast on auth
  // errors, and an auth error whose status the provider's profile retries.
  method AuthRetryHappens() returns (log: Trace)
    ensures AuthFailed("p") in log && AuthRetry("m") in log
  {
    hide GoodStream;
    var binding := Binding("m", "p", [], {Chat}, true, false, 0);
    var catalog := Catalog(map["m" := binding], [binding]);
    var error := ProviderError(true, true, false, false);
    var failing := Try(false, Refusal(error), false, true, false);
    var answer := Try(false, Live([Done(false)], Finished), false, true, false);
    var turn := Turn(None, failing, answer, false, Health(b => false, b => 0.0));
    var request, policy, providers :=
      Request(ChatCompletions, false, true), Policy(true, None), Providers({"p"}, {"p"});
    var outcome, order, last, parts;
    outcome, log, order, last, parts := RunStreamWithin(catalog, request, policy, providers, "m", n => turn);
    ghost var s := Setting(catalog, request, policy, providers, "m", n => turn);
    FirstTurnRepeats(s, outcome, log, order, last, parts, error);
  }

  // The first turn of a run that begins with a retryable auth failure.
  lemma FirstTurnRepeats(
    s: Setting, outcome: Outcome, log: Trace, order: seq<string>, last: View, parts: seq<Trace>,
    error: ProviderError)
    requires GoodStream(s, outcome, log, order, last, parts) && s.modelId in s.catalog.models
    requires s.modelId != AUTO_MODEL_ID && s.request.replaySafe && s.policy == Policy(true, None)
    requires
      var turn, binding := s.turns(0), s.catalog.models[s.modelId];
      && turn.skip.None? && turn.first == Try(false, Refusal(error), false, true, false) && !turn.retry.aborted
      && s.request == Request(ChatCompletions, false, true) && Chat in binding.capabilities
      && error == ProviderError(true, true, false, false)
      && binding.providerId in s.providers.failFast && binding.providerId in s.providers.openAiCompatible
    ensures AuthFailed(s.catalog.models[s.modelId].providerId) in log && AuthRetry(s.modelId) in log
  {
    hide Delivers, NobodyTakesOver, TakesOver, Safe, NoneLeft;
    FirstPart(s, parts, outcome);
    AllExplained(s, parts, outcome);
    assert s.Explained(parts, 0) && parts[..0] == [];
    OneEvent(Enter(s.modelId));
    var c := s.CaseAt(parts, 0);
    assert c.callsBefore == 0 && !c.emergency && c.IsCalledAgain() && c.RepeatsAfterAuthFailure();
    assert AuthRetry(s.modelId) in parts[0] && AuthFailed(c.model.binding.providerId) in parts[0];
    FlatMembers(parts, AuthRetry(s.modelId));
    FlatMembers(parts, AuthFailed(c.model.binding.providerId));
  }

  lemma FirstPart(s: Setting, parts: seq<Trace>, outcome: Outcome)
    requires s.EndsWith(parts, outcome) && s.modelId in s.catalog.models && s.modelId != AUTO_MODEL_ID
    ensures parts != [] && parts[0] != [] && parts[0][0] == Enter(s.modelId)
  {
    hide Delivers, NobodyTakesOver, TakesOver;
    AllExplained(s, parts, outcome);
    assert s.Explained(parts, 0);
    var last := |parts| - 1;
    if last > 0 {
      assert s.FirstModel(parts[..last]);
      assert parts[..last][0] == parts[0];
    }
  }

  // ---- the consumer ----

  // The events up to a terminal event that reports an error.
  function UpToError(events: seq<StreamEvent>): seq<StreamEvent> {
    if events == [] || events[0] == Done(true) then [] else [events[0]] + UpToError(events[1..])
  }

  lemma {:induction false} DrainedMembers(log: Trace, e: StreamEvent)
    ensures e in Drained(log) <==> Yield(e) in log
  {
    if log != [] {
      var n := |log| - 1;
      assert log == log[..n] + [log[n]];
      DrainedMembers(log[..n], e);
    }
  }

  // How many items the consumer waits for before the request is found aborted: the
  // first check is before the first item.
  predicate CutBy(cut: nat -> bool, items: nat) {
    exists i :: 0 <= i <= items && cut(i)
  }

  // runModelStream forwards what the run yields and refuses a terminal event that
  // reports an error; waiting for item i is cut short by an abort or the deadline when
  // cut(i).  It completes exactly when the run returned, reported no error and was not
  // cut, and then a proper terminal event was delivered.  A consumer that was not cut
  // gets every event up to an error, a cut one a prefix of that; the run it abandons has
  // then performed a prefix of its trace.
  method RunStream(
    catalog: Catalog, request: Request, policy: Policy, providers: Providers, modelId: string, turns: nat -> Turn,
    cut: nat -> bool)
    returns (
      completed: bool, delivered: seq<StreamEvent>, inner: Outcome, log: Trace, order: seq<string>, last: View,
      parts: seq<Trace>)
    requires Routable(catalog)
    ensures GoodStream(Setting(catalog, request, policy, providers, modelId, turns), inner, log, order, last, parts)
    ensures delivered <= UpToError(Drained(log)) && Done(true) !in delivered
    ensures !CutBy(cut, |Drained(log)|) ==> delivered == UpToError(Drained(log))
    ensures forall i :: 0 <= i < |delivered| ==> !cut(i)
    ensures |delivered| < |UpToError(Drained(log))| ==> cut(|delivered|)
    ensures completed <==> inner == Returned && Yield(Done(true)) !in log && !CutBy(cut, |Drained(log)|)
    ensures completed ==> Done(false) in delivered && delivered == Drained(log)
  {
    inner, log, order, last, parts := RunStreamWithin(catalog, request, policy, providers, modelId, turns);
    hide GoodStream, UpToError, Drained;
    StreamEnds(Setting(catalog, request, policy, providers, modelId, turns), inner, log, order, last, parts);
    var events := Drained(log);
    DrainedMembers(log, Done(true));
    DrainedMembers(log, Done(false));
    var finished;
    delivered, finished := Forward(events, cut);
    completed := |delivered| == |events| && !cut(|delivered|) && inner == Returned && finished;
    assert |delivered| == |events| ==> delivered == events;
  }

  // The consumer loop: forward items until the end, an error or a cut.
  method Forward(events: seq<StreamEvent>, cut: nat -> bool) returns (delivered: seq<StreamEvent>, finished: bool)
    ensures delivered <= events && delivered <= UpToError(events) && Done(true) !in delivered
    ensures finished <==> Done(false) in delivered
    ensures !CutBy(cut, |events|) ==> delivered == UpToError(events)
    ensures forall i :: 0 <= i < |delivered| ==> !cut(i)
    ensures |delivered| < |UpToError(events)| ==> cut(|delivered|)
    ensures |delivered| == |events| && !cut(|delivered|) <==> Done(true) !in events && !CutBy(cut, |events|)
  {
    delivered, finished := [], false;
    while |delivered| < |events| && !cut(|delivered|) && events[|delivered|] != Done(true)
      invariant delivered <= events && Done(true) !in delivered
      invariant finished <==> Done(false) in delivered
      invariant forall i :: 0 <= i < |delivered| ==> !cut(i)
    {
      finished := finished || events[|delivered|] == Done(false);
      delivered := delivered + [events[|delivered|]];
    }
    PrefixUpToError(events, |delivered|);
    assert |delivered| == |events| ==> delivered == events;
    assert |delivered| < |events| && !cut(|delivered|) ==> events[|delivered|] == Done(true);
  }

  lemma {:induction false} PrefixUpToError(events: seq<StreamEvent>, i: nat)
    requires i <= |events| && Done(true) !in events[..i]
    ensures events[..i] <= UpToError(events)
    ensures (i < |events| ==> events[i] == Done(true)) ==> UpToError(events) == events[..i]
  {
    if i > 0 {
      assert events[0] in events[..i];
      assert events[1..][..i - 1] == events[..i][1..];
      PrefixUpToError(events[1..], i - 1);
    }
  }

  lemma StreamEnds(
    s: Setting, outcome: Outcome, log: Trace, order: seq<string>, last: View, parts: seq<Trace>)
    requires GoodStream(s, outcome, log, order, last, parts)
    ensures outcome == Returned ==> DeliveredDone(log)
  {
  }
}
