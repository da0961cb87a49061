// What a run of the fallback engine does, as a trace of events, and the safety
// properties every such trace has.
module RunTrace {
  import opened Wrappers
  import opened Catalog
  import opened Fallback
  import opened Sequences

  // What a consumer of a streamed run can receive.
  datatype StreamEvent =
    | OutputDelta(text: string)
    | ReasoningDelta(text: string)
    | ToolCall(id: string)
    | Done(isError: bool)

  // An empty delta commits the run to nothing; everything else does.
  predicate Visible(event: StreamEvent) {
    match event
    case OutputDelta(text) => text != ""
    case ReasoningDelta(text) => text != ""
    case ToolCall(_) => true
    case Done(_) => true
  }

  datatype Event =
    | Enter(id: string)
    | Dispatch(id: string)
    | AuthRetry(id: string)  // a second dispatch made although its provider is recorded as auth-failed
    | AuthFailed(provider: string)
    | Emergency(id: string)
    | Yield(event: StreamEvent)

  type Trace = seq<Event>

  function Count(log: Trace, e: Event): nat {
    if log == [] then 0 else Count(log[..|log| - 1], e) + if log[|log| - 1] == e then 1 else 0
  }

  // The events that call a provider.
  predicate Sends(e: Event) {
    e.Dispatch? || e.AuthRetry?
  }

  function DispatchCount(log: Trace): nat {
    if log == [] then 0 else DispatchCount(log[..|log| - 1]) + if Sends(log[|log| - 1]) then 1 else 0
  }

  lemma {:induction false} DispatchesAdd(a: Trace, b: Trace)
    ensures DispatchCount(a + b) == DispatchCount(a) + DispatchCount(b)
    decreases |b|
  {
    if b == [] {
      assert a + b == a;
    } else {
      assert (a + b)[..|a + b| - 1] == a + b[..|b| - 1];
      DispatchesAdd(a, b[..|b| - 1]);
    }
  }

  ghost predicate Committed(log: Trace) {
    exists e :: e in log && e.Yield? && Visible(e.event)
  }

  // After an emergency selection only that model may run.
  ghost predicate EmergencyAllows(log: Trace, id: string) {
    forall e :: e in log && e.Emergency? ==> e.id == id
  }

  // The model the run began with is not manual-only.
  ghost predicate BeginsAutomatically(catalog: Catalog, log: Trace) {
    log != [] && log[0].Enter? && log[0].id in catalog.models && !catalog.models[log[0].id].manualOnly
  }

  // Which event may follow which history.
  ghost predicate Allowed(catalog: Catalog, request: Request, before: Trace, e: Event) {
    match e
    case Enter(id) =>
      && id in catalog.models && Enter(id) !in before
      && (before != [] ==> !catalog.models[id].manualOnly && SupportsRequest(catalog.models[id], request))
      && !Committed(before) && EmergencyAllows(before, id)
    case Dispatch(id) =>
      && id in catalog.models && Enter(id) in before
      && AuthFailed(catalog.models[id].providerId) !in before
      && Count(before, e) < (if Emergency(id) in before then 1 else 2) && AuthRetry(id) !in before
      && !Committed(before) && EmergencyAllows(before, id)
    case AuthRetry(id) =>
      && id in catalog.models && Enter(id) in before
      && AuthFailed(catalog.models[id].providerId) in before
      && Count(before, Dispatch(id)) == 1 && AuthRetry(id) !in before
      && !Committed(before) && forall x :: x in before ==> !x.Emergency?
    case Emergency(id) =>
      && id in catalog.models && Enter(id) !in before && request.replaySafe && BeginsAutomatically(catalog, before)
      && !Committed(before) && forall x :: x in before ==> !x.Emergency?
    case AuthFailed(_) => before != []
    case Yield(_) => exists x :: x in before && Sends(x)
  }

  ghost predicate Safe(catalog: Catalog, request: Request, log: Trace) {
    forall i :: 0 <= i < |log| ==> Allowed(catalog, request, log[..i], log[i])
  }

  lemma Appended(catalog: Catalog, request: Request, log: Trace, e: Event)
    requires Safe(catalog, request, log) && Allowed(catalog, request, log, e)
    ensures Safe(catalog, request, log + [e])
    ensures DispatchCount(log + [e]) == DispatchCount(log) + if Sends(e) then 1 else 0
    ensures Count(log + [e], e) == Count(log, e) + 1
  {
    hide Allowed;
    var all := log + [e];
    assert all[..|all| - 1] == log;
    forall i | 0 <= i < |all| ensures Allowed(catalog, request, all[..i], all[i]) {
      if i < |log| {
        assert all[..i] == log[..i];
      }
    }
  }

  lemma EventsAfter(log: Trace, e: Event)
    ensures forall x :: x in log + [e] <==> x in log || x == e
    ensures Committed(log + [e]) <==> Committed(log) || (e.Yield? && Visible(e.event))
  {
    assert forall x :: x in log + [e] <==> x in log || x == e;
    assert e in log + [e];
  }

  lemma {:induction false} Absent(log: Trace, e: Event)
    requires e !in log
    ensures Count(log, e) == 0
  {
    if log != [] {
      Absent(log[..|log| - 1], e);
    }
  }

  // ---- what safety says about a finished run ----

  lemma {:induction false} CountsAreBounded(catalog: Catalog, request: Request, log: Trace, id: string)
    requires Safe(catalog, request, log)
    ensures Count(log, Enter(id)) <= 1
    ensures Count(log, Dispatch(id)) + Count(log, AuthRetry(id)) <= 2
  {
    if log != [] {
      var n := |log| - 1;
      assert forall i :: 0 <= i < n ==> log[..n][..i] == log[..i];
      CountsAreBounded(catalog, request, log[..n], id);
      if log[n] == Enter(id) {
        Absent(log[..n], Enter(id));
      } else if log[n] == Dispatch(id) || log[n] == AuthRetry(id) {
        Absent(log[..n], AuthRetry(id));
      }
    }
  }

  // For any two events of a run, the earlier one restricts the later one: only the
  // first entered model may be manual-only; a provider recorded as auth-failed is
  // never dispatched to again; after an emergency selection no other model runs
  // and none is selected again; nothing runs after something visible was delivered.
  lemma LaterEvents(catalog: Catalog, request: Request, log: Trace, i: nat, j: nat)
    requires Safe(catalog, request, log) && i < j < |log|
    ensures log[j].Enter? ==> log[j].id in catalog.models && !catalog.models[log[j].id].manualOnly
    ensures log[i].AuthFailed? && log[j].Dispatch? ==>
      log[j].id in catalog.models && catalog.models[log[j].id].providerId != log[i].provider
    ensures log[i].Emergency? ==>
      !log[j].Emergency? && !log[j].AuthRetry? && (log[j].Enter? || log[j].Dispatch? ==> log[j].id == log[i].id)
    ensures log[i].Yield? && Visible(log[i].event) ==> !log[j].Enter? && !Sends(log[j]) && !log[j].Emergency?
  {
    assert Allowed(catalog, request, log[..j], log[j]);
    assert log[..j][i] == log[i];
  }

  // The emergency model is dispatched at most once.
  lemma EmergencyRunsOnce(catalog: Catalog, request: Request, log: Trace, i: nat, j: nat, k: nat)
    requires Safe(catalog, request, log) && i < j < k < |log| && log[i].Emergency? && log[j].Dispatch?
    ensures !log[k].Dispatch?
  {
    LaterEvents(catalog, request, log, i, j);
    LaterEvents(catalog, request, log, i, k);
    assert Allowed(catalog, request, log[..k], log[k]);
    assert log[..k][i] == log[i] && log[..k][j] == log[j];
    Present(log[..k], log[j]);
  }

  // What every run promises, read off its trace alone.
  ghost predicate KeepsPromises(catalog: Catalog, log: Trace) {
    // each model is tried in at most one turn and called at most twice
    && (forall id :: Count(log, Enter(id)) <= 1 && Count(log, Dispatch(id)) + Count(log, AuthRetry(id)) <= 2)
    // only the first model may be manual-only
    && (forall j :: 0 < j < |log| && log[j].Enter? ==>
      log[j].id in catalog.models && !catalog.models[log[j].id].manualOnly)
    // a provider recorded as auth-failed gets no new dispatch
    && (forall i, j :: 0 <= i < j < |log| && log[i].AuthFailed? && log[j].Dispatch? ==>
          log[j].id in catalog.models && catalog.models[log[j].id].providerId != log[i].provider)
    // the emergency model is the last one called, and called once
    && (forall i, j :: 0 <= i < j < |log| && log[i].Emergency? ==>
      !log[j].Emergency? && (Sends(log[j]) ==> log[j] == Dispatch(log[i].id)))
    && (forall i, j, k :: 0 <= i < j < k < |log| && log[i].Emergency? && log[j].Dispatch? ==> !log[k].Dispatch?)
    // and there is none if the run began with a manual-only model
    && (EmergencyIn(log) ==> BeginsAutomatically(catalog, log))
    // nothing is called after a visible event: all of them come from one and the same call, the last
    && (forall i, j :: i < j < |log| && VisibleAt(log, i) ==> !Sends(log[j]))
    && ((exists i :: VisibleAt(log, i)) ==>
          exists s :: IsLastSend(log, s) && forall i :: VisibleAt(log, i) ==> s < i)
  }

  ghost predicate VisibleAt(log: Trace, i: int) {
    0 <= i < |log| && log[i].Yield? && Visible(log[i].event)
  }

  ghost predicate IsLastSend(log: Trace, s: int) {
    0 <= s < |log| && Sends(log[s]) && forall j :: s < j < |log| ==> !Sends(log[j])
  }

  lemma LastSendBefore(log: Trace, i: nat) returns (s: nat)
    requires i < |log| && (exists x :: x in log[..i] && Sends(x)) && forall j :: i <= j < |log| ==> !Sends(log[j])
    ensures IsLastSend(log, s) && s < i
  {
    var x :| x in log[..i] && Sends(x);
    s := i - 1;
    while !Sends(log[s])
      invariant s < i && forall j :: s < j < |log| ==> !Sends(log[j])
      decreases s
    {
      assert exists k :: 0 <= k <= s && log[k] == x;
      s := s - 1;
    }
  }

  lemma VisibleFollowsLastSend(catalog: Catalog, request: Request, log: Trace, i: nat) returns (s: nat)
    requires Safe(catalog, request, log) && VisibleAt(log, i)
    ensures IsLastSend(log, s) && s < i
  {
    assert Allowed(catalog, request, log[..i], log[i]);
    forall j | i < j < |log| ensures !Sends(log[j]) {
      LaterEvents(catalog, request, log, i, j);
    }
    s := LastSendBefore(log, i);
  }

  lemma EmergencyNeedsAnAutomaticStart(catalog: Catalog, request: Request, log: Trace, i: nat)
    requires Safe(catalog, request, log) && i < |log| && log[i].Emergency?
    ensures request.replaySafe && BeginsAutomatically(catalog, log)
  {
    assert Allowed(catalog, request, log[..i], log[i]);
    assert log[..i][0] == log[0];
  }

  lemma SafeRunsKeepPromises(catalog: Catalog, request: Request, log: Trace)
    requires Safe(catalog, request, log)
    ensures KeepsPromises(catalog, log)
  {
    hide Safe, Visible, Count;
    forall id {
      CountsAreBounded(catalog, request, log, id);
    }
    forall i, j | 0 <= i < j < |log| {
      LaterEvents(catalog, request, log, i, j);
    }
    forall j | 0 < j < |log| {
      LaterEvents(catalog, request, log, 0, j);
    }
    forall i, j, k | 0 <= i < j < k < |log| && log[i].Emergency? && log[j].Dispatch? {
      EmergencyRunsOnce(catalog, request, log, i, j, k);
    }
    if e :| e in log && e.Emergency? {
      var i :| 0 <= i < |log| && log[i] == e;
      EmergencyNeedsAnAutomaticStart(catalog, request, log, i);
    }
    if first :| VisibleAt(log, first) {
      var s := VisibleFollowsLastSend(catalog, request, log, first);
      forall i | VisibleAt(log, i) ensures s < i {
        var s' := VisibleFollowsLastSend(catalog, request, log, i);
        assert s == s';
      }
    }
  }

  lemma {:induction false} Present(log: Trace, e: Event)
    requires e in log
    ensures Count(log, e) >= 1
  {
    var n := |log| - 1;
    if log[n] != e {
      assert e in log[..n];
      Present(log[..n], e);
    }
  }

  ghost predicate EmergencyIn(log: Trace) {
    exists e :: e in log && e.Emergency?
  }

  // ---- how the trace mirrors the bookkeeping of a run ----

  predicate Recorded(e: Event, run: Run) {
    match e
    case Enter(id) => id in run.visited
    case Dispatch(id) => id in run.visited
    case AuthRetry(id) => id in run.visited && run.authRetried
    case AuthFailed(provider) => provider in run.authFailed
    case Emergency(id) => run.emergency == Some(id)
    case Yield(event) => Visible(event) ==> run.emitted
  }

  ghost predicate Mirrors(log: Trace, run: Run) {
    && (forall e :: e in log ==> Recorded(e, run))
    && (forall id :: id in run.visited ==> Enter(id) in log)
    && (forall provider :: provider in run.authFailed ==> AuthFailed(provider) in log)
    && (run.emergency.Some? ==> Emergency(run.emergency.value) in log)
    && (run.authRetried ==> exists e :: e in log && e.AuthRetry?)
    && (log != [] ==> run.visited != [] && log[0] == Enter(run.visited[0]))
    && run.attempts == DispatchCount(log)
  }

  ghost predicate Good(catalog: Catalog, request: Request, log: Trace, run: Run) {
    Safe(catalog, request, log) && Mirrors(log, run)
  }

  // How the bookkeeping follows an event.
  function After(run: Run, e: Event): Run {
    match e
    case Enter(id) => run.(visited := run.visited + [id])
    case Dispatch(_) => run.(attempts := run.attempts + 1)
    case AuthRetry(_) => run.(attempts := run.attempts + 1, authRetried := true)
    case AuthFailed(provider) => run.(authFailed := run.authFailed + {provider})
    case Emergency(id) => run.(emergency := Some(id))
    case Yield(event) => run.(emitted := run.emitted || Visible(event))
  }

  lemma MirrorsAfter(log: Trace, run: Run, e: Event)
    requires Mirrors(log, run)
    requires Sends(e) ==> e.id in run.visited
    requires e.Emergency? ==> run.emergency.None?
    requires log == [] ==> e.Enter? && run.visited == []
    ensures Mirrors(log + [e], After(run, e))
  {
    assert (log + [e])[..|log + [e]| - 1] == log;
    EventsAfter(log, e);
    var run' := After(run, e);
    assert forall id :: id in run'.visited <==> id in run.visited || e == Enter(id);
    assert e in log + [e];
    forall x | x in log + [e] ensures Recorded(x, run') {
      assert x in log ==> Recorded(x, run);
    }
  }

  // A good trace stays good when an allowed event is recorded.
  lemma Extend(catalog: Catalog, request: Request, log: Trace, run: Run, e: Event)
    requires Good(catalog, request, log, run) && Allowed(catalog, request, log, e)
    ensures Good(catalog, request, log + [e], After(run, e))
    ensures Count(log + [e], e) == Count(log, e) + 1
  {
    Appended(catalog, request, log, e);
    assert run.visited != [] ==> Enter(run.visited[0]) in log;
    MirrorsAfter(log, run, e);
  }

  // ---- when the bookkeeping allows an event ----

  lemma MayEnter(catalog: Catalog, request: Request, log: Trace, run: Run, id: string)
    requires Mirrors(log, run) && !run.emitted && id in catalog.models && id !in run.visited
    requires log != [] ==> !catalog.models[id].manualOnly && SupportsRequest(catalog.models[id], request)
    requires run.emergency.Some? ==> run.emergency == Some(id)
    ensures Allowed(catalog, request, log, Enter(id)) && Dispatch(id) !in log && AuthRetry(id) !in log
  {
  }

  lemma MayDispatch(catalog: Catalog, request: Request, log: Trace, run: Run, id: string)
    requires Mirrors(log, run) && !run.emitted
    requires id in catalog.models && id in run.visited && catalog.models[id].providerId !in run.authFailed
    requires Count(log, Dispatch(id)) < if run.emergency.Some? then 1 else 2
    requires run.emergency.Some? ==> run.emergency == Some(id)
    requires !run.authRetried || AuthRetry(id) !in log
    ensures Allowed(catalog, request, log, Dispatch(id))
  {
  }

  lemma MayRetryAfterAuth(catalog: Catalog, request: Request, log: Trace, run: Run, id: string)
    requires Mirrors(log, run) && !run.emitted && run.emergency.None?
    requires id in catalog.models && id in run.visited && catalog.models[id].providerId in run.authFailed
    requires Count(log, Dispatch(id)) == 1 && AuthRetry(id) !in log
    ensures Allowed(catalog, request, log, AuthRetry(id))
  {
  }

  lemma MaySelect(catalog: Catalog, request: Request, log: Trace, run: Run, id: string)
    requires Mirrors(log, run) && !run.emitted && run.emergency.None? && id in catalog.models && id !in run.visited
    requires log != [] && request.replaySafe && run.visited[0] in catalog.models
    requires !catalog.models[run.visited[0]].manualOnly
    ensures Allowed(catalog, request, log, Emergency(id))
  {
  }

  // The bookkeeping lists each visited model once, so a run has at most one turn per model.
  lemma TurnsAreBounded(visited: seq<string>, models: map<string, Binding>)
    requires Distinct(visited) && forall id :: id in visited ==> id in models
    ensures |visited| <= |models|
  {
    DistinctSize(visited);
    assert Members(visited) <= models.Keys;
    SubsetSize(Members(visited), models.Keys);
  }

  lemma FewerUntried(models: set<string>, visited: seq<string>, current: string)
    requires current in models && current !in visited
    ensures models - Members(visited + [current]) < models - Members(visited)
  {
    assert current in Members(visited + [current]) && current !in Members(visited);
  }
}
