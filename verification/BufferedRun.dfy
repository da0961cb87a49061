// runModelWithin: one buffered request driven over the configured models until a
// provider serves it or the fallbacks are exhausted.  Everything the outside world
// decides during one turn of the loop is an oracle value of that turn.
module BufferedRun {
  import opened Wrappers
  import opened Catalog
  import opened Ranking
  import opened Fallback
  import opened RunTrace
  import opened RunSteps
  import opened Exhaustion
  import opened Succession
  import opened BufferedLaw
  import opened Sequences

  // ---- one attempt, with its single retry ----

  datatype Tried = Succeeded | Failed(error: ProviderError) | Stopped

  // How the attempt ends, in terms of the replies to its calls.
  ghost predicate Tells(tried: Tried, c: Case) {
    && (tried.Stopped? <==> c.IsStopped())
    && (tried.Succeeded? <==> c.IsAnswered())
    && (tried.Failed? && c.IsRejected() ==> tried.error == c.LastReply().error)
    && (tried.Failed? && !c.IsRejected() ==> tried.error == LOCAL_ERROR)
  }

  // The calls of one turn in the trace.
  function CallsTo(id: string, calls: nat): Trace {
    seq(calls, i => Dispatch(id))
  }

  method Attempt(catalog: Catalog, request: Request, policy: Policy, binding: Binding, turn: Turn, run: Run, log: Trace)
    returns (tried: Tried, run': Run, log': Trace, made: nat)
    requires Consistent(run, catalog, request, log) && !run.emitted && log != [] && turn.skip.None?
    requires binding.modelId in run.visited && binding == catalog.models[binding.modelId]
    requires binding.providerId !in run.authFailed && Dispatch(binding.modelId) !in log
    requires AuthRetry(binding.modelId) !in log
    requires run.emergency.Some? ==> run.emergency == Some(binding.modelId)
    requires WithinBudget(policy, run.attempts) && (policy.allowFallback || run.attempts == 0)
    ensures Consistent(run', catalog, request, log') && WithinBudget(policy, run'.attempts)
    ensures run' == run.(attempts := run.attempts + made) && log' == log + CallsTo(binding.modelId, made)
    ensures
      var c := Case(binding, request, policy, turn, run.attempts, run.emergency.Some?, made);
      c.CallsAreRight() && Tells(tried, c)
  {
    hide Consistent, SupportsRequest, Count, Case.Serves, Tells, Case.CallsAreRight;
    ServesMeans(Case(binding, request, policy, turn, run.attempts, run.emergency.Some?, 0));
    run', log', made := run, log, 0;
    if !PassesDispatchCheck(binding, request) {
      tried := Failed(LOCAL_ERROR);
    } else if turn.aborts.beforeDispatch {
      tried := Stopped;
    } else if !policy.CanAttempt(run.attempts) {
      tried := Failed(LOCAL_ERROR);
    } else {
      Absent(log, Dispatch(binding.modelId));
      run', log' := Send(catalog, request, binding, run', log');
      made := 1;
      var reply, stopped := turn.first, false;
      if reply.Rejection? && run.emergency.None? && reply.error.upstream && turn.retryAllowed && request.replaySafe {
        if turn.aborts.beforeRetry {
          stopped := true;
        } else if policy.CanFallback(run'.attempts) {
          run', log' := Send(catalog, request, binding, run', log');
          made := 2;
          reply := turn.second;
        }
      }
      tried := if stopped || turn.aborts.afterReply then Stopped
      else match reply
        case Answer => Succeeded
        case InvalidAnswer => Failed(LOCAL_ERROR)
        case Rejection(error) => Failed(error);
    }
    AttemptTold(Case(binding, request, policy, turn, run.attempts, run.emergency.Some?, made), tried);
  }

  lemma ServesMeans(c: Case)
    ensures forall made: nat :: c.(made := made).Serves() <==> PassesDispatchCheck(c.binding, c.request)
  {
  }

  // The attempt, step by step: not called, stopped before a retry, or judged by a reply.
  lemma AttemptTold(c: Case, tried: Tried)
    requires c.turn.skip.None? && c.made <= 2
    requires c.made == 0 ==>
      if c.Serves() && c.turn.aborts.beforeDispatch then tried == Stopped
      else tried == Failed(LOCAL_ERROR) && (c.Serves() ==> !Room(c.policy, c.callsBefore))
    requires c.made > 0 ==>
      && c.Serves() && !c.turn.aborts.beforeDispatch && Room(c.policy, c.callsBefore)
      && (c.made == 2 <==> c.RetryIsDue() && !c.turn.aborts.beforeRetry
                           && c.policy.allowFallback && Room(c.policy, c.callsBefore + 1))
      && var reply := c.LastReply();
      if (c.RetryIsDue() && c.turn.aborts.beforeRetry) || c.turn.aborts.afterReply then tried == Stopped
      else if reply.Rejection? then tried == Failed(reply.error)
      else tried == if reply.Answer? then Succeeded else Failed(LOCAL_ERROR)
    ensures c.CallsAreRight() && Tells(tried, c)
  {
    hide Case.Serves, Room;
  }

  // ---- one turn of the loop ----

  datatype Step = Finish(outcome: Outcome) | GoOn(id: string)

  // The loop invariant, at the head of a turn that will enter current.
  ghost predicate AtHead(
    run: Run, catalog: Catalog, request: Request, policy: Policy, log: Trace, start: string,
    autoFallbacks: seq<string>, current: string)
  {
    && Consistent(run, catalog, request, log) && !run.emitted && !run.authRetried
    && WithinBudget(policy, run.attempts) && (policy.allowFallback || run.attempts == 0)
    && if log == [] then run == NEW_RUN && current == start && current in catalog.models
       else
         && log[0] == Enter(start)
         && run.See(catalog, request).Dispatchable(current)
         && if run.emergency.Some? then run.emergency == Some(current)
            else Ready(run.See(catalog, request), run.pending, start, autoFallbacks, current)
  }

  lemma Entering(
    catalog: Catalog, request: Request, policy: Policy, run: Run, log: Trace, start: string,
    autoFallbacks: seq<string>, current: string)
    requires Routable(catalog) && AtHead(run, catalog, request, policy, log, start, autoFallbacks, current)
    ensures current in catalog.models && catalog.models[current].modelId == current && current !in run.visited
    ensures catalog.models[current].providerId !in run.authFailed
    ensures run.emergency.Some? ==> run.emergency == Some(current)
    ensures Consistent(run.(visited := run.visited + [current]), catalog, request, log + [Enter(current)])
    ensures |run.visited| < |catalog.models|
    ensures Dispatch(current) !in log + [Enter(current)] && AuthRetry(current) !in log + [Enter(current)]
    ensures (log + [Enter(current)])[0] == Enter(start)
    ensures run.emergency.Some? <==> EmergencyIn(log)
    ensures run.attempts == DispatchCount(log)
    ensures run.visited == [] ==> current == start && run.pending == []
  {
    hide Allowed, Safe, Mirrors, DispatchCount, Count, WithinBudget, Ready;
    MirroredCount(log, run);
    EmergencyMirrored(log, run);
    assert log != [] ==> run.visited != [] by { FirstIsVisited(log, run); }
    MayEnter(catalog, request, log, run, current);
    Extend(catalog, request, log, run, Enter(current));
    EventsAfter(log, Enter(current));
    TurnsAreBounded(run.visited + [current], catalog.models);
  }

  lemma FirstIsVisited(log: Trace, run: Run)
    requires Mirrors(log, run)
    ensures log != [] ==> run.visited != []
  {
  }

  // What is left to do after trying a model: nothing if there is an outcome.
  ghost predicate OutcomeTells(outcome: Option<Outcome>, c: Case) {
    && (outcome.None? <==> c.Fails())
    && (outcome.Some? ==>
          && !outcome.value.Refused? && !outcome.value.Exhausted?
          && (outcome.value.Served? <==> c.IsAnswered()) && (outcome.value.Uncertain? <==> c.IsUncertain())
          && (outcome.value.Served? ==> outcome.value.id == c.binding.modelId))
  }

  function FailureNote(records: bool, provider: string): Trace {
    if records then [AuthFailed(provider)] else []
  }

  // Skip or try the model of this turn.
  method SkipOrTry(
    catalog: Catalog, request: Request, policy: Policy, failFast: set<string>, turn: Turn, binding: Binding,
    run: Run, log: Trace)
    returns (outcome: Option<Outcome>, run': Run, log': Trace, made: nat)
    requires Consistent(run, catalog, request, log) && !run.emitted && log != []
    requires binding.modelId in run.visited && binding == catalog.models[binding.modelId]
    requires binding.providerId !in run.authFailed
    requires Dispatch(binding.modelId) !in log && AuthRetry(binding.modelId) !in log
    requires run.emergency.Some? ==> run.emergency == Some(binding.modelId)
    requires WithinBudget(policy, run.attempts) && (policy.allowFallback || run.attempts == 0)
    ensures Consistent(run', catalog, request, log') && WithinBudget(policy, run'.attempts)
    ensures outcome.Some? && outcome.value.Served? ==> log' != [] && log'[|log'| - 1] == Dispatch(outcome.value.id)
    ensures
      var c := Case(binding, request, policy, turn, run.attempts, run.emergency.Some?, made);
      var records := c.RecordsAuthFailure(failFast);
      && c.CallsAreRight() && OutcomeTells(outcome, c)
      && log' == log + CallsTo(binding.modelId, made) + FailureNote(records, binding.providerId)
      && run' == run.(
           authFailed := run.authFailed + (if records then {binding.providerId} else {}),
           attempts := run.attempts + made)
  {
    hide Consistent, WithinBudget, PassesDispatchCheck, SupportsRequest, Case.Serves, Case.RetryIsDue;
    run', log', outcome, made := run, log, None, 0;
    if turn.skip.Some? {
      if turn.skip.value.SkipAuth? {
        run', log' := RecordAuthFailure(catalog, request, run', log', binding.providerId);
      }
    } else {
      var tried;
      tried, run', log', made := Attempt(catalog, request, policy, binding, turn, run', log');
      match tried
      case Succeeded => outcome := Some(Served(binding.modelId));
      case Stopped => outcome := Some(AbortedRun);
      case Failed(error) =>
        if error.uncertain {
          outcome := Some(Uncertain);
        } else if error.upstream && error.auth && binding.providerId in failFast {
          run', log' := RecordAuthFailure(catalog, request, run', log', binding.providerId);
        }
    }
  }

  lemma {:induction false} CallsCounted(id: string, made: nat)
    ensures DispatchCount(CallsTo(id, made)) == made
  {
    if made > 0 {
      assert CallsTo(id, made)[..made - 1] == CallsTo(id, made - 1);
      CallsCounted(id, made - 1);
    }
  }

  lemma OthersCounted(e: Event)
    requires !Sends(e)
    ensures DispatchCount([e]) == 0 && DispatchCount([]) == 0
  {
    assert [e][..0] == [];
  }

  // The part of a turn: the entry, the calls, and an auth failure.
  function PartOf(id: string, made: nat, records: bool, provider: string): Trace {
    [Enter(id)] + CallsTo(id, made) + FailureNote(records, provider)
  }

  lemma PartExplains(
    catalog: Catalog, request: Request, policy: Policy, failFast: set<string>, turn: Turn, before: Trace, id: string,
    made: nat, records: bool)
    requires id in catalog.models && !turn.aborts.atTop
    requires
      var c := Case(catalog.models[id], request, policy, turn, DispatchCount(before), EmergencyIn(before), made);
      c.CallsAreRight() && (records <==> c.RecordsAuthFailure(failFast))
    ensures
      var part := PartOf(id, made, records, catalog.models[id].providerId);
      && IsPart(catalog, part) && DispatchCount(part) == made && !EmergencyIn(part)
      && TurnExplained(catalog, request, policy, failFast, turn, before, part)
  {
    hide Case.CallsAreRight, Case.RecordsAuthFailure;
    var provider := catalog.models[id].providerId;
    var part := PartOf(id, made, records, provider);
    PartCount(id, made, records, provider);
    if records {
      assert part[made + 1] == AuthFailed(provider);
    }
  }

  lemma PartCount(id: string, made: nat, records: bool, provider: string)
    ensures DispatchCount(PartOf(id, made, records, provider)) == made
  {
    hide DispatchCount;
    OthersCounted(Enter(id));
    CallsCounted(id, made);
    OthersCounted(AuthFailed(provider));
    DispatchesAdd([Enter(id)], CallsTo(id, made));
    DispatchesAdd([Enter(id)] + CallsTo(id, made), FailureNote(records, provider));
  }

  // A selection of the emergency model changes nothing about the turn before it.
  lemma ExplainedWithSelection(
    catalog: Catalog, request: Request, policy: Policy, failFast: set<string>, turn: Turn, before: Trace,
    part: Trace, selected: Trace)
    requires IsPart(catalog, part) && TurnExplained(catalog, request, policy, failFast, turn, before, part)
    requires selected == [] || exists x :: selected == [Emergency(x)]
    ensures IsPart(catalog, part + selected)
    ensures CaseOf(catalog, request, policy, turn, before, part + selected) ==
      CaseOf(catalog, request, policy, turn, before, part)
    ensures TurnExplained(catalog, request, policy, failFast, turn, before, part + selected)
  {
    hide DispatchCount, Case.CallsAreRight, Case.RecordsAuthFailure;
    DispatchesAdd(part, selected);
    if selected == [] {
      assert part + selected == part;
    } else {
      OthersCounted(selected[0]);
      assert selected == [selected[0]];
      assert AuthFailed(catalog.models[part[0].id].providerId) != selected[0];
    }
  }

  // The first half of a turn: enter the model and skip or try it.  The result is an
  // outcome, or nothing when the loop has to look for another model.
  method EnterAndTry(s: Setting, turn: Turn, run: Run, log: Trace, current: string)
    returns (outcome: Option<Outcome>, run': Run, log': Trace, part: Trace)
    requires Routable(s.catalog) && s.roots != [] && !turn.aborts.atTop
    requires AtHead(run, s.catalog, s.request, s.policy, log, s.roots[0], s.roots[1..], current)
    ensures Consistent(run', s.catalog, s.request, log') && WithinBudget(s.policy, run'.attempts)
    ensures run' == run.(visited := run.visited + [current], authFailed := run'.authFailed, attempts := run'.attempts)
    ensures run.authFailed <= run'.authFailed
    ensures log' == log + part && log' != [] && log'[0] == Enter(s.roots[0])
    ensures IsPart(s.catalog, part) && part[0] == Enter(current) && !EmergencyIn(part)
    ensures TurnExplained(s.catalog, s.request, s.policy, s.failFast, turn, log, part)
    ensures OutcomeTells(outcome, CaseOf(s.catalog, s.request, s.policy, turn, log, part))
    ensures outcome.Some? && outcome.value.Served? ==> log'[|log'| - 1] == Dispatch(outcome.value.id)
  {
    hide AtHead, Safe, Mirrors, DispatchCount, Case.CallsAreRight, Case.RecordsAuthFailure, Case.IsStopped, Consistent;
    hide WithinBudget, TurnExplained, IsPart, EmergencyIn;
    HeadFacts(run, s.catalog, s.request, s.policy, log, s.roots[0], s.roots[1..], current);
    Entering(s.catalog, s.request, s.policy, run, log, s.roots[0], s.roots[1..], current);
    // The loop's tests for a visited or an unregistered model never succeed.
    if current in run.visited || current !in s.catalog.models { assert false; }
    var binding, entered := s.catalog.models[current], run.(visited := run.visited + [current]);
    var made;
    outcome, run', log', made := SkipOrTry(
      s.catalog, s.request, s.policy, s.failFast, turn, binding, entered, log + [Enter(current)]);
    ghost var c := Case(binding, s.request, s.policy, turn, DispatchCount(log), EmergencyIn(log), made);
    ghost var records := c.RecordsAuthFailure(s.failFast);
    part := log'[|log|..];
    assert part == PartOf(current, made, records, binding.providerId);
    PartExplains(s.catalog, s.request, s.policy, s.failFast, turn, log, current, made, records);
  }

  lemma HeadFacts(
    run: Run, catalog: Catalog, request: Request, policy: Policy, log: Trace, start: string,
    autoFallbacks: seq<string>, current: string)
    requires AtHead(run, catalog, request, policy, log, start, autoFallbacks, current)
    ensures Consistent(run, catalog, request, log) && (log != [] ==> log[0] == Enter(start))
    ensures !run.emitted && WithinBudget(policy, run.attempts) && (policy.allowFallback || run.attempts == 0)
    ensures !run.authRetried && (EmergencyIn(log) <==> run.emergency.Some?)
    ensures if run.visited == [] then current == start && run.pending == []
      else run.emergency.None? ==> Ready(run.See(catalog, request), run.pending, start, autoFallbacks, current)
  {
    hide Safe, DispatchCount, Count, Ready, SupportsRequest, WithinBudget;
    EmergencyMirrored(log, run);
    assert log == [] ==> run.visited == [];
    FirstIsVisited(log, run);
  }

  // What the end of a run promises about its outcome.
  ghost predicate FinalOutcome(
    outcome: Outcome, catalog: Catalog, request: Request, policy: Policy, run: Run, log: Trace, roots: seq<string>)
  {
    && !outcome.Refused? && !run.authRetried
    && (outcome.Served? ==> log != [] && log[|log| - 1] == Dispatch(outcome.id))
    && (outcome.Exhausted? && policy.CanFallback(run.attempts) && run.emergency.None? ==>
          NoneLeft(run.See(catalog, request), roots))
  }

  // One turn.  Unless it is aborted at its top, it adds a part to the trace that explains
  // what was called, and it ends the run or finds the model that takes over.
  method TakeTurn(s: Setting, n: nat, run: Run, log: Trace, ghost parts: seq<Trace>, current: string)
    returns (step: Step, run': Run, log': Trace, part: Trace)
    requires Routable(s.catalog) && s.roots != []
    requires AtHead(run, s.catalog, s.request, s.policy, log, s.roots[0], s.roots[1..], current)
    requires log == Flat(parts) && run.visited == Entered(parts) && n == |parts|
    ensures Consistent(run', s.catalog, s.request, log') && WithinBudget(s.policy, run'.attempts)
    ensures log' != [] ==> log'[0] == Enter(s.roots[0])
    ensures step.Finish? ==> FinalOutcome(step.outcome, s.catalog, s.request, s.policy, run', log', s.roots)
    ensures step.GoOn? ==> AtHead(run', s.catalog, s.request, s.policy, log', s.roots[0], s.roots[1..], step.id)
    ensures step.Finish? ==> !step.outcome.Refused?
    ensures s.turns(n).aborts.atTop ==> step == Finish(AbortedRun) && run' == run && log' == log
    ensures !s.turns(n).aborts.atTop ==>
      && log' == Flat(parts + [part]) && run'.visited == run.visited + [current] == Entered(parts + [part])
      && part != [] && part[0] == Enter(current)
      && s.Explained(parts + [part], n)
      && (step.GoOn? ==> s.FallsBackTo(parts + [part], n, step.id))
      && (step.Finish? ==> s.EndsTurn(parts + [part], step.outcome))
  {
    hide AtHead, Safe, Mirrors, DispatchCount, Consistent, WithinBudget, TakesOver, NobodyTakesOver, NoneLeft;
    hide TurnExplained, EmergencyIn, Flat, Entered, Case.CallsAreRight;
    hide Case.RecordsAuthFailure, Case.IsStopped, Case.IsRejected, Case.LastReply;
    run', log', part := run, log, [];
    HeadFacts(run, s.catalog, s.request, s.policy, log, s.roots[0], s.roots[1..], current);
    if s.turns(n).aborts.atTop {
      return Finish(AbortedRun), run', log', [];
    }
    var outcome;
    outcome, run', log', part := EnterAndTry(s, s.turns(n), run, log, current);
    NewPart(parts, part, current);
    if outcome.Some? {
      step := Finish(outcome.value);
      EndsByTrying(s, parts, part, outcome.value);
    } else {
      step, run', log', part := LookFurther(s, n, run, run', log', parts, part);
      NewPart(parts, part, current);
    }
  }

  lemma NewPart(parts: seq<Trace>, part: Trace, current: string)
    requires part != [] && part[0] == Enter(current)
    ensures Flat(parts + [part]) == Flat(parts) + part
    ensures |Entered(parts)| == |parts| && Entered(parts + [part]) == Entered(parts) + [current]
    ensures (parts + [part])[..|parts|] == parts && (parts + [part])[..|parts| + 1] == parts + [part]
  {
    hide Flat;
    FlatOneMore(parts, part);
  }

  // The run ends with the model that was tried.
  lemma EndsByTrying(s: Setting, parts: seq<Trace>, part: Trace, outcome: Outcome)
    requires IsPart(s.catalog, part) && s.catalog.Valid()
    requires OutcomeTells(Some(outcome), CaseOf(s.catalog, s.request, s.policy, s.turns(|parts|), Flat(parts), part))
    ensures s.EndsTurn(parts + [part], outcome)
  {
    hide Case.IsStopped, Case.LastReply, Flat, Entered, DispatchCount, NobodyTakesOver, SearchAborted, CaseOf;
    NewPart(parts, part, part[0].id);
    var all := parts + [part];
    assert all[|parts|] == part && Entered(all)[|parts|] == part[0].id;
    assert s.CaseAt(all, |parts|) == CaseOf(s.catalog, s.request, s.policy, s.turns(|parts|), Flat(parts), part);
    CaseModel(s.catalog, s.request, s.policy, s.turns(|parts|), Flat(parts), part);
  }

  lemma CaseModel(catalog: Catalog, request: Request, policy: Policy, turn: Turn, before: Trace, part: Trace)
    requires IsPart(catalog, part)
    ensures CaseOf(catalog, request, policy, turn, before, part).binding == catalog.models[part[0].id]
    ensures catalog.Valid() ==> catalog.models[part[0].id].modelId == part[0].id
  {
  }

  // The run ends because no other model is found.
  lemma EndsBySearch(s: Setting, parts: seq<Trace>, part: Trace, outcome: Outcome)
    requires IsPart(s.catalog, part)
    requires CaseOf(s.catalog, s.request, s.policy, s.turns(|parts|), Flat(parts), part).Fails()
    requires
      var aborted, health := s.turns(|parts|).aborts.inSearch, s.turns(|parts|).health;
      if SearchAborted(Flat(parts), aborted) then outcome == AbortedRun
      else
        && outcome == Exhausted
        && NobodyTakesOver(
             s.catalog, s.request, s.policy, s.roots, parts + [part], Flat(parts), aborted, health)
    ensures s.EndsTurn(parts + [part], outcome)
  {
    hide Case.IsStopped, Case.IsUncertain, Case.IsAnswered, Case.Fails, Flat, DispatchCount, CaseOf;
    hide NobodyTakesOver, SearchAborted;
    NewPart(parts, part, part[0].id);
    var all := parts + [part];
    var c := CaseOf(s.catalog, s.request, s.policy, s.turns(|parts|), Flat(parts), part);
    assert s.CaseAt(all, |parts|) == c;
    assert !c.IsAnswered() && !c.IsUncertain() && !c.IsStopped() by { FailsAlone(c); }
    var aborted, health := s.turns(|parts|).aborts.inSearch, s.turns(|parts|).health;
    if SearchAborted(Flat(parts), aborted) {
      AbortedLeavesOpen(s, all, Flat(parts), aborted, health);
    } else {
      assert NobodyTakesOver(s.catalog, s.request, s.policy, s.roots, all, Flat(parts), aborted, health);
    }
  }

  lemma AbortedLeavesOpen(s: Setting, parts: seq<Trace>, before: Trace, aborted: bool, health: Health)
    requires SearchAborted(before, aborted)
    ensures !NobodyTakesOver(s.catalog, s.request, s.policy, s.roots, parts, before, aborted, health)
  {
  }

  lemma FailsAlone(c: Case)
    requires c.Fails()
    ensures !c.IsAnswered() && !c.IsUncertain() && !c.IsStopped()
  {
  }

  // The second half of a turn that failed: find the next model.
  method LookFurther(
    s: Setting, n: nat, ghost before: Run, run: Run, log: Trace, ghost parts: seq<Trace>, part: Trace)
    returns (step: Step, run': Run, log': Trace, part': Trace)
    requires Routable(s.catalog) && s.roots != [] && n == |parts|
    requires IsPart(s.catalog, part) && !EmergencyIn(part) && log == Flat(parts) + part && log[0] == Enter(s.roots[0])
    requires if before.visited == [] then part[0].id == s.roots[0] && before.pending == []
      else before.emergency.None? ==>
        Ready(before.See(s.catalog, s.request), before.pending, s.roots[0], s.roots[1..], part[0].id)
    requires before.visited == Entered(parts) && before.authFailed <= run.authFailed && !before.authRetried
    requires run == before.(
      visited := before.visited + [part[0].id], authFailed := run.authFailed, attempts := run.attempts)
    requires Consistent(run, s.catalog, s.request, log) && WithinBudget(s.policy, run.attempts) && !run.emitted
    requires EmergencyIn(Flat(parts)) <==> before.emergency.Some?
    requires TurnExplained(s.catalog, s.request, s.policy, s.failFast, s.turns(n), Flat(parts), part)
    requires CaseOf(s.catalog, s.request, s.policy, s.turns(n), Flat(parts), part).Fails()
    ensures Consistent(run', s.catalog, s.request, log') && WithinBudget(s.policy, run'.attempts)
    ensures part <= part' && log' == Flat(parts) + part' && log' != [] && log'[0] == Enter(s.roots[0])
    ensures run'.visited == run.visited
    ensures step.Finish? ==> FinalOutcome(step.outcome, s.catalog, s.request, s.policy, run', log', s.roots)
    ensures step.GoOn? ==> AtHead(run', s.catalog, s.request, s.policy, log', s.roots[0], s.roots[1..], step.id)
    ensures s.Explained(parts + [part'], n)
    ensures step.GoOn? ==> s.FallsBackTo(parts + [part'], n, step.id)
    ensures step.Finish? ==> s.EndsTurn(parts + [part'], step.outcome)
  {
    hide Safe, Mirrors, DispatchCount, Consistent, TakesOver, NobodyTakesOver, NoneLeft, Ready;
    hide TurnExplained, EmergencyIn, Flat, Case.CallsAreRight, Case.Fails;
    var binding := s.catalog.models[part[0].id];
    var next;
    ghost var longer;
    ghost var roots := [s.roots[0]] + s.roots[1..];
    assert roots == s.roots;
    NewPart(parts, part, part[0].id);
    next, run', log', longer := FindSuccessor(
      s.catalog, s.request, s.policy, binding, s.roots[1..], s.turns(n).aborts.inSearch, s.turns(n).health, before, run,
      log, s.roots[0], parts, part);
    part' := part + log'[|log|..];
    assert part' == longer;
    NewPart(parts, part', part[0].id);
    ExplainedWithSelection(
      s.catalog, s.request, s.policy, s.failFast, s.turns(n), Flat(parts), part, longer[|part|..]);
    step := match next
      case Aborted => Finish(AbortedRun)
      case NoModel => Finish(Exhausted)
      case Found(id) => GoOn(id);
    if step.Finish? {
      EndsBySearch(s, parts, part', step.outcome);
    }
  }

  // ---- the run ----

  // What holds of every finished run.  The trace is safe, the loop turned at most once
  // per registered model, the attempt budget held, no provider recorded as auth-failed
  // was called again, an answer came from the last dispatch, and a run that gave up
  // although fallback was still allowed has left no dispatchable model within reach of
  // its roots.  Turn by turn it made the calls that were due, every turn but the last
  // failed and was followed by the model that takes over, and the last one decides the
  // outcome: an answer exactly if its last reply is one.
  ghost predicate GoodRun(s: Setting, outcome: Outcome, log: Trace, count: nat, last: View, parts: seq<Trace>) {
    && Safe(s.catalog, s.request, log)
    && count <= |s.catalog.models|
    && WithinBudget(s.policy, DispatchCount(log))
    && (forall id :: AuthRetry(id) !in log)
    && (outcome.Refused? <==> s.roots == [])
    && (log != [] ==> s.roots != [] && log[0] == Enter(s.roots[0]))
    && (outcome.Served? ==> log != [] && log[|log| - 1] == Dispatch(outcome.id))
    && (forall id :: Enter(id) in log <==> id in last.visited)
    && (outcome.Exhausted? && s.policy.CanFallback(DispatchCount(log)) && (forall id :: Emergency(id) !in log) ==>
          NoneLeft(last, s.roots))
    && log == Flat(parts) && last == Known(s.catalog, s.request, parts)
    && s.EndsWith(parts, count, outcome)
  }

  // For any catalogue (fallback cycles included), any policy and any behaviour of the
  // providers and of the health tracker.
  method RunModel(
    catalog: Catalog, request: Request, policy: Policy, modelId: string, failFast: set<string>,
    autoQuality: Binding -> real, turns: nat -> Turn)
    returns (outcome: Outcome, log: Trace, count: nat, last: View, roots: seq<string>, parts: seq<Trace>)
    requires Routable(catalog)
    ensures GoodRun(Setting(catalog, request, policy, failFast, roots, turns), outcome, log, count, last, parts)
    ensures modelId != AUTO_MODEL_ID ==> roots == if modelId in catalog.models then [modelId] else []
    ensures modelId == AUTO_MODEL_ID ==> roots == Ids(Sort(Candidates(catalog.bindings, request, autoQuality)))
    ensures outcome.Refused? <==> roots == []
  {
    hide GoodRun, SupportsRequest;
    roots := Roots(catalog, request, modelId, autoQuality);
    var s := Setting(catalog, request, policy, failFast, roots, turns);
    if roots == [] {
      outcome, log, count, last, parts := Refused, [], 0, View(catalog.models, request, [], {}), [];
      NothingHappened(s, last);
    } else {
      outcome, log, count, last, parts := RunLoop(s);
    }
  }

  lemma NothingHappened(s: Setting, last: View)
    requires last == View(s.catalog.models, s.request, [], {}) && s.roots == []
    ensures GoodRun(s, Refused, [], 0, last, [])
  {
    hide NoneLeft;
  }

  // The requested model, or for the automatic model the ranking: the best candidate
  // first and the others as fallbacks.
  method Roots(catalog: Catalog, request: Request, modelId: string, autoQuality: Binding -> real)
    returns (roots: seq<string>)
    requires Routable(catalog)
    ensures modelId != AUTO_MODEL_ID ==> roots == if modelId in catalog.models then [modelId] else []
    ensures modelId == AUTO_MODEL_ID ==>
      roots == Ids(Sort(Candidates(catalog.bindings, request, autoQuality)))
    ensures forall i :: 0 <= i < |roots| ==> roots[i] in catalog.models
  {
    if modelId == AUTO_MODEL_ID {
      CandidateIndicesDistinct(catalog.bindings, request, autoQuality);
      var ranked := RankAutoCandidates(catalog, request, autoQuality);
      roots := Ids(ranked);
      forall i | 0 <= i < |ranked| ensures ranked[i].binding.modelId in catalog.models {
        assert ranked[i] in multiset(ranked);
        assert ranked[i] in Candidates(catalog.bindings, request, autoQuality);
      }
    } else {
      roots := if modelId in catalog.models then [modelId] else [];
    }
  }

  function Ids(ranked: seq<Candidate>): seq<string> {
    seq(|ranked|, i requires 0 <= i < |ranked| => ranked[i].binding.modelId)
  }

  lemma Concluded(s: Setting, outcome: Outcome, run: Run, log: Trace, count: nat, parts: seq<Trace>)
    requires Consistent(run, s.catalog, s.request, log) && WithinBudget(s.policy, run.attempts)
    requires count <= |s.catalog.models|
    requires FinalOutcome(outcome, s.catalog, s.request, s.policy, run, log, s.roots)
    requires s.roots != [] && (log != [] ==> log[0] == Enter(s.roots[0]))
    requires log == Flat(parts) && run.visited == Entered(parts) && s.EndsWith(parts, count, outcome)
    ensures GoodRun(s, outcome, log, count, run.See(s.catalog, s.request), parts) && !outcome.Refused?
  {
    hide NoneLeft, Flat, Entered, Safe, Mirrors, Setting.EndsWith, AuthFailures, WithinBudget;
    TraceTells(log, run);
    FailuresMirrored(log, run);
  }

  lemma TraceTells(log: Trace, run: Run)
    requires Mirrors(log, run)
    ensures run.attempts == DispatchCount(log)
    ensures forall id :: AuthRetry(id) in log ==> run.authRetried
    ensures forall id :: Enter(id) in log <==> id in run.visited
    ensures (forall id :: Emergency(id) !in log) ==> run.emergency.None?
  {
    forall id | AuthRetry(id) in log ensures run.authRetried {
      assert Recorded(AuthRetry(id), run);
    }
    forall id | Enter(id) in log ensures id in run.visited {
      assert Recorded(Enter(id), run);
    }
  }

  lemma Starting(s: Setting)
    requires s.roots != [] && s.roots[0] in s.catalog.models
    ensures AtHead(NEW_RUN, s.catalog, s.request, s.policy, [], s.roots[0], s.roots[1..], s.roots[0])
    ensures s.LeadsTo([], s.roots[0]) && Flat([]) == [] && Entered([]) == []
  {
  }

  // One more failed turn, and the model that takes over.
  lemma LeadsOn(s: Setting, parts: seq<Trace>, part: Trace, current: string, next: string)
    requires s.LeadsTo(parts, current) && part != [] && part[0] == Enter(current)
    requires s.Explained(parts + [part], |parts|) && s.FallsBackTo(parts + [part], |parts|, next)
    ensures s.LeadsTo(parts + [part], next)
  {
    hide Setting.Explained, Setting.FallsBackTo;
    var all := parts + [part];
    forall n | 0 <= n < |all| ensures s.LeadsOn(all, n, next) {
      if n < |parts| {
        assert s.LeadsOn(parts, n, current);
        SameTurn(s, parts, part, n);
        assert Entered(all)[n + 1] == if n + 1 < |parts| then Entered(parts)[n + 1] else current;
      }
    }
    assert s.FirstModel(all, s.roots[0]);
  }

  lemma SameTurn(s: Setting, parts: seq<Trace>, part: Trace, n: nat)
    requires n < |parts|
    ensures s.Explained(parts + [part], n) == s.Explained(parts, n)
    ensures forall id :: s.FallsBackTo(parts + [part], n, id) == s.FallsBackTo(parts, n, id)
  {
    hide TurnExplained, TakesOver, Case.Fails, Flat;
    var all := parts + [part];
    assert all[..n] == parts[..n] && all[..n + 1] == parts[..n + 1] && all[n] == parts[n];
  }

  lemma EndsWithLast(s: Setting, parts: seq<Trace>, part: Trace, current: string, outcome: Outcome)
    requires s.LeadsTo(parts, current) && part != [] && part[0] == Enter(current) && !outcome.Refused?
    requires s.Explained(parts + [part], |parts|) && s.EndsTurn(parts + [part], outcome)
    ensures s.EndsWith(parts + [part], |parts| + 1, outcome)
  {
    assert (parts + [part])[..|parts|] == parts;
  }

  method RunLoop(s: Setting)
    returns (outcome: Outcome, log: Trace, count: nat, last: View, parts: seq<Trace>)
    requires Routable(s.catalog) && s.roots != [] && s.roots[0] in s.catalog.models
    ensures GoodRun(s, outcome, log, count, last, parts) && !outcome.Refused?
  {
    hide AtHead, Consistent, FinalOutcome, GoodRun, WithinBudget, Setting.LeadsTo, Setting.EndsWith, Setting.EndsTurn;
    hide Setting.Explained, Setting.FallsBackTo, Flat, Entered;
    var run, current := NEW_RUN, s.roots[0];
    log, count, parts := [], 0, [];
    Starting(s);
    while true
      invariant AtHead(run, s.catalog, s.request, s.policy, log, s.roots[0], s.roots[1..], current)
      invariant count == |parts| == |run.visited| && log == Flat(parts) && run.visited == Entered(parts)
      invariant s.LeadsTo(parts, current)
      decreases s.catalog.models.Keys - Members(run.visited)
    {
      ghost var visited, before := run.visited, parts;
      Entering(s.catalog, s.request, s.policy, run, log, s.roots[0], s.roots[1..], current);
      var step, part;
      step, run, log, part := TakeTurn(s, count, run, log, parts, current);
      if s.turns(count).aborts.atTop {
        AbortedAtTop(s, parts, current);
        count := count + 1;
        Concluded(s, AbortedRun, run, log, count, parts);
        return AbortedRun, log, count, run.See(s.catalog, s.request), parts;
      }
      assert part != [] && part[0] == Enter(current);
      parts, count := parts + [part], count + 1;
      match step
      case Finish(done) =>
        EndsWithLast(s, before, part, current, done);
        Concluded(s, done, run, log, count, parts);
        return done, log, count, run.See(s.catalog, s.request), parts;
      case GoOn(id) =>
        FewerUntried(s.catalog.models.Keys, visited, current);
        LeadsOn(s, before, part, current, id);
        current := id;
    }
  }

  lemma AbortedAtTop(s: Setting, parts: seq<Trace>, current: string)
    requires s.LeadsTo(parts, current) && s.turns(|parts|).aborts.atTop
    ensures s.EndsWith(parts, |parts| + 1, AbortedRun)
  {
    hide Setting.LeadsTo;
  }
}
