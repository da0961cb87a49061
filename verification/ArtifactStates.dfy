// One run of CodexAgentManager, or one task of RemoteAgentManager, step by step: its staged
// handoff, the collection of its result files, and its eviction from the manager's table.
// Each step is uninterrupted between two awaits, so any list of steps is an interleaving of
// result requests, cancels, timers, close() and promise callbacks.
module ArtifactStates {
  import opened Wrappers

  // A started collection: running, settled with its finally callback still to come (early:
  // it failed before the block that ends in the cleanup), or over.
  datatype Collection = Collecting | Settled(early: bool) | Over

  // How far close() is with this record: not called, not there yet, waiting for the
  // cleanup, past the record, or done with the whole table.
  datatype Closing = Open | Pending | Cleaning | Visited | Cleared

  // The two ways to be done with a staged handoff: some call begins its cleanup, or the
  // finally callback of a collection that failed early drops it uncleaned.
  datatype Disposal = NotYet | CleanupBegun | DroppedUncleaned

  predicate SomePending(collections: seq<Collection>) {
    exists i :: 0 <= i < |collections| && collections[i] != Over
  }

  ghost predicate SomeOver(collections: seq<Collection>) {
    exists i :: 0 <= i < |collections| && collections[i] == Over
  }

  // A run of a manager or a remote task, whether output files were requested, and whether
  // a handoff was staged.
  datatype Setup = Setup(remote: bool, outputEnabled: bool, staged: bool)

  // ---- what each step is to do ----

  datatype Step =
    | OnSessionEnd | OnObserve | OnFinalize | OnGetResultFiles
    | OnSettle(i: nat, success: bool, early: bool) | OnFinish(i: nat)
    | OnCancel | OnCancelCleaned(failed: bool) | OnTimer | OnEvictCleaned | OnEvictWaited
    | OnClose | OnCloseVisit | OnCloseCleaned | OnCloseClear

  datatype State = State(
    ended: bool, terminal: bool, handoff: bool, resultFiles: bool, resultCollection: Option<nat>,
    retentionTimer: bool, inTable: bool, closing: Closing, collections: seq<Collection>, evictsCleaning: nat,
    evictsWaiting: nat, cancelsCleaning: nat, cleanupAttempted: bool, failedEarly: bool, first: Disposal)

  // Only an open manager arms the timer, and only for a record in its table.
  function Arming(s: State): (r: State)
    ensures r.closing == s.closing && r.collections == s.collections && r.failedEarly == s.failedEarly
  {
    s.(retentionTimer := s.retentionTimer || (s.closing.Open? && s.inTable))
  }

  function Observing(s: State): (r: State)
    ensures r.closing == s.closing && r.collections == s.collections && r.failedEarly == s.failedEarly
  {
    if s.terminal then s else Arming(s.(terminal := true))
  }

  function BeginningCleanup(s: State): (r: State)
    ensures r.closing == s.closing && r.collections == s.collections && r.failedEarly == s.failedEarly
  {
    s.(cleanupAttempted := true, first := if s.first.NotYet? then CleanupBegun else s.first)
  }

  // A remote task leaves the table at once, a run when its child has exited.
  function Leaving(s: State, remote: bool): (r: State)
    ensures r.closing == s.closing && r.collections == s.collections && r.failedEarly == s.failedEarly
  {
    if remote then s.(resultFiles := false, inTable := false)
    else s.(resultFiles := false, evictsWaiting := s.evictsWaiting + 1)
  }

  function Ending(s: State, remote: bool): (r: State)
    ensures r.closing == s.closing && r.collections == s.collections && r.failedEarly == s.failedEarly
  {
    if remote then s.(ended := true)
    else if s.terminal then s else Arming(s.(ended := true, terminal := true))
  }

  function Collected(s: State, outputEnabled: bool): (r: State)
    ensures r.closing == s.closing && r.failedEarly == s.failedEarly
  {
    if !s.inTable || !s.ended then s
    else
      var o := Observing(s);
      if o.resultFiles || !o.handoff || !outputEnabled then o
      else Joining(o)
  }

  // A running collection is shared; otherwise one is started.
  function Joining(s: State): (r: State)
    ensures r.closing == s.closing && r.failedEarly == s.failedEarly
  {
    if s.resultCollection.Some? then s.(retentionTimer := false)
    else s.(
      retentionTimer := false, collections := s.collections + [Collecting],
      resultCollection := Some(|s.collections|))
  }

  function Settling(s: State, i: nat, success: bool, early: bool): (r: State)
    ensures r.closing == s.closing && |r.collections| == |s.collections| && (r.failedEarly ==> s.failedEarly || early)
  {
    if i >= |s.collections| || !s.collections[i].Collecting? || (success && early) then s
    else
      var told := if early then s.(failedEarly := true) else BeginningCleanup(s);
      told.(
        collections := s.collections[i := Settled(early)], resultFiles := s.resultFiles || (success && s.inTable))
  }

  function Dropping(s: State, i: nat): State
    requires i < |s.collections| && s.collections[i].Settled?
  {
    s.(
      first := (if s.collections[i].early && s.first.NotYet? then DroppedUncleaned else s.first),
      collections := s.collections[i := Over], handoff := false, resultCollection := None)
  }

  function Finishing(s: State, i: nat): (r: State)
    ensures r.closing == s.closing && |r.collections| == |s.collections| && r.failedEarly == s.failedEarly
  {
    if i < |s.collections| && s.collections[i].Settled? then Arming(Dropping(s, i)) else s
  }

  function Cancelling(s: State, remote: bool): (r: State)
    ensures r.closing == s.closing && r.collections == s.collections && r.failedEarly == s.failedEarly
  {
    if !s.inTable then s
    else
      var over := Ending(s, remote);
      if over.handoff then BeginningCleanup(over).(cancelsCleaning := over.cancelsCleaning + 1)
      else if remote then Observing(over) else over
  }

  // A failed cleanup ends the call before a remote task is observed.
  function Cancelled(s: State, remote: bool, failed: bool): (r: State)
    ensures r.closing == s.closing && r.collections == s.collections && r.failedEarly == s.failedEarly
  {
    if s.cancelsCleaning == 0 || !s.ended then s
    else
      var cleaned := s.(handoff := false, cancelsCleaning := s.cancelsCleaning - 1);
      if remote && !failed then Observing(cleaned) else cleaned
  }

  function Firing(s: State, remote: bool): (r: State)
    ensures r.closing == s.closing && r.collections == s.collections && r.failedEarly == s.failedEarly
  {
    var fired := s.(retentionTimer := false);
    if !s.retentionTimer then s
    else if !s.inTable then fired
    else if s.resultCollection.Some? then Arming(fired)
    else if s.handoff && !s.resultFiles then BeginningCleanup(fired).(evictsCleaning := s.evictsCleaning + 1)
    else Leaving(fired, remote)
  }

  function Retiring(s: State, remote: bool): State {
    s.(retentionTimer := false, ended := true, terminal := s.terminal || !remote)
  }

  function Visiting(s: State, remote: bool): (r: State)
    ensures r.collections == s.collections && r.failedEarly == s.failedEarly && (r.closing.Open? <==> s.closing.Open?)
  {
    if !s.closing.Pending? || !s.inTable then s
    else
      var over := Retiring(s, remote);
      if s.handoff && !s.resultFiles then BeginningCleanup(over).(closing := Closing.Cleaning)
      else over.(resultFiles := false, resultCollection := None, closing := Visited)
  }

  function After(s: State, setup: Setup, step: Step): (r: State)
    ensures r.closing.Open? <==> s.closing.Open? && !step.OnClose?
    ensures r.failedEarly ==> s.failedEarly || (step.OnSettle? && step.early)
    ensures !step.OnGetResultFiles? ==> |r.collections| == |s.collections|
  {
    hide Observing, Ending, Collected, Settling, Finishing, Cancelling, Cancelled, Firing, Visiting, Leaving;
    var remote := setup.remote;
    match step
    case OnSessionEnd => if remote then s.(ended := true) else s
    case OnObserve => if s.ended then Observing(s) else s
    case OnFinalize => if remote then s else Ending(s, remote)
    case OnGetResultFiles => Collected(s, setup.outputEnabled)
    case OnSettle(i, success, early) => Settling(s, i, success, early)
    case OnFinish(i) => Finishing(s, i)
    case OnCancel => Cancelling(s, remote)
    case OnCancelCleaned(failed) => Cancelled(s, remote, failed)
    case OnTimer => Firing(s, remote)
    case OnEvictCleaned =>
      if s.evictsCleaning == 0 then s
      else Leaving(s.(handoff := false, evictsCleaning := s.evictsCleaning - 1), remote)
    case OnEvictWaited =>
      if s.evictsWaiting == 0 then s else s.(inTable := false, evictsWaiting := s.evictsWaiting - 1)
    case OnClose => if s.closing.Open? then s.(closing := Pending) else s
    case OnCloseVisit => Visiting(s, remote)
    case OnCloseCleaned =>
      if !s.closing.Cleaning? then s
      else s.(handoff := false, resultFiles := false, resultCollection := None, closing := Visited)
    case OnCloseClear =>
      if s.closing.Visited? || (s.closing.Pending? && !s.inTable) then s.(inTable := false, closing := Cleared) else s
  }

  function Fresh(handoff: bool): State {
    State(false, false, handoff, false, None, false, true, Open, [], 0, 0, 0, false, false, NotYet)
  }

  // ---- what holds at all times ----

  // At most one collection at a time is offered to callers; none once the handoff is
  // gone; a second one can exist only after close() passed the record.
  ghost predicate SingleFlight(s: State, setup: Setup) {
    && (s.resultCollection.Some? ==>
          s.resultCollection.value == |s.collections| - 1 && s.collections[|s.collections| - 1] != Over)
    && |s.collections| <= (if s.closing.Visited? || s.closing.Cleared? then 2 else 1)
    && (SomeOver(s.collections) ==> !s.handoff)
    && (s.collections != [] && s.handoff && s.resultCollection.None? ==>
          |s.collections| == 1 && s.collections[0].Settled? && (s.closing.Visited? || s.closing.Cleared?))
    && (s.resultFiles && s.handoff ==> s.collections != [] && s.collections[0].Settled?)
    && (s.resultFiles ==> s.collections != [])
    && (|s.collections| == 2 ==> !s.collections[0].Collecting?)
    && (s.collections != [] ==> setup.outputEnabled)
  }

  // A handoff that close() passed by is one whose files were there.
  ghost predicate PassedBy(s: State) {
    && (s.closing.Cleaning? || s.closing.Visited? ==> s.ended)
    && (s.closing.Visited? && s.handoff ==> s.collections != [])
    && (s.closing.Visited? && s.handoff && |s.collections| == 1 ==>
          s.collections[0].Settled? && s.resultCollection.None? && !s.resultFiles)
  }

  // The handoff is given up, and the record leaves the table, only after a disposal.
  ghost predicate CleanedUp(s: State, setup: Setup) {
    && (s.handoff ==> setup.staged)
    && (setup.staged && !s.handoff ==> !s.first.NotYet?)
    && (s.resultFiles || s.evictsCleaning > 0 || s.cancelsCleaning > 0 || s.closing.Cleaning? ==> s.cleanupAttempted)
    && (s.handoff && PastTheTable(s) ==> s.cleanupAttempted)
    && (|s.collections| == 2 ==> s.cleanupAttempted)
    && (forall i :: 0 <= i < |s.collections| && s.collections[i].Settled? ==>
          if s.collections[i].early then s.failedEarly else s.cleanupAttempted)
  }

  // The record has left the table, or nothing can keep it from leaving any more.
  ghost predicate PastTheTable(s: State) {
    s.evictsWaiting > 0 || !s.inTable || s.closing.Visited? || s.closing.Cleared?
  }

  // Once the handoff is dropped uncleaned nothing is left that could clean it up.
  ghost predicate FirstDecides(s: State) {
    && (s.cleanupAttempted <==> s.first.CleanupBegun?)
    && (s.first.DroppedUncleaned? ==> !s.handoff && s.failedEarly && s.collections == [Over])
  }

  // A terminal record that is still in the table of an open manager will be evicted:
  // its timer is armed, or a collection or an eviction is on its way.
  ghost predicate NoLeak(s: State, setup: Setup) {
    && (if setup.remote then s.terminal ==> s.ended else s.terminal == s.ended)
    && (s.terminal && s.inTable && s.closing.Open? ==>
          s.retentionTimer || SomePending(s.collections) || s.evictsCleaning + s.evictsWaiting > 0)
    && (s.closing.Cleaning? || s.closing.Visited? ==> !s.retentionTimer)
    && (s.closing.Cleared? ==> !s.inTable)
  }

  ghost predicate Sound(s: State, setup: Setup) {
    SingleFlight(s, setup) && PassedBy(s) && CleanedUp(s, setup) && FirstDecides(s) && NoLeak(s, setup)
  }

  lemma FreshIsSound(setup: Setup)
    ensures Sound(Fresh(setup.staged), setup)
  {
  }

  lemma ObservingKeepsSound(s: State, setup: Setup)
    requires Sound(s, setup) && s.ended
    ensures Sound(Observing(s), setup)
  {
  }

  lemma EndingKeepsSound(s: State, setup: Setup)
    requires Sound(s, setup)
    ensures Sound(Ending(s, setup.remote), setup)
  {
  }

  lemma CollectedKeepsSound(s: State, setup: Setup)
    requires Sound(s, setup)
    ensures Sound(Collected(s, setup.outputEnabled), setup)
  {
    if s.inTable && s.ended {
      ObservingKeepsSound(s, setup);
    }
    if s.inTable && s.ended && s.handoff && setup.outputEnabled && !s.resultFiles {
      StartKeepsSound(Observing(s), setup);
    }
  }

  lemma StartKeepsSound(s: State, setup: Setup)
    requires Sound(s, setup) && s.inTable && s.ended && s.handoff && setup.outputEnabled && !s.resultFiles
    ensures Sound(Joining(s), setup)
  {
  }

  // The collection that callers get is the last one, and a second one is started only
  // after close() has passed the record with the first one settled.
  lemma CollectionTells(s: State, setup: Setup)
    requires Sound(s, setup)
    ensures s.resultCollection.Some? ==> s.resultCollection.value == |s.collections| - 1
    ensures s.handoff && s.resultCollection.None? && |s.collections| == 1 ==>
      (s.closing.Visited? || s.closing.Cleared?) && s.collections[0].Settled?
    ensures |s.collections| <= 2 && (s.closing.Cleared? ==> !s.inTable)
  {
  }

  lemma SettlingKeepsSound(s: State, setup: Setup, i: nat, success: bool, early: bool)
    requires Sound(s, setup)
    ensures Sound(Settling(s, i, success, early), setup)
  {
    if i < |s.collections| {
      assert s.collections[i := Settled(early)][i] != Over;
    }
  }

  lemma FinishingKeepsSound(s: State, setup: Setup, i: nat)
    requires Sound(s, setup)
    ensures Sound(Finishing(s, i), setup)
  {
    if i < |s.collections| {
      assert s.collections[i := Over][i] == Over;
    }
  }

  lemma TerminalRun(s: State, setup: Setup)
    requires Sound(s, setup)
    ensures !setup.remote ==> s.terminal == s.ended
  {
  }

  // After its end a run is terminal as well.
  lemma EndsTheRun(s: State, setup: Setup)
    requires Sound(s, setup)
    ensures
      var over := Ending(s, setup.remote);
      over.ended && over.handoff == s.handoff && (!setup.remote ==> over.terminal)
  {
  }

  lemma CancellingKeepsSound(s: State, setup: Setup)
    requires Sound(s, setup)
    ensures Sound(Cancelling(s, setup.remote), setup)
  {
    hide Sound, Ending, Observing, BeginningCleanup;
    EndingKeepsSound(s, setup);
    EndsTheRun(s, setup);
    var over := Ending(s, setup.remote);
    if over.handoff {
      BegunKeepsSound(over, setup);
    } else if setup.remote {
      ObservingKeepsSound(over, setup);
    }
  }

  lemma BegunKeepsSound(s: State, setup: Setup)
    requires Sound(s, setup) && s.handoff
    ensures Sound(BeginningCleanup(s), setup)
    ensures Sound(BeginningCleanup(s).(cancelsCleaning := s.cancelsCleaning + 1), setup)
  {
  }

  lemma FiringKeepsSound(s: State, setup: Setup)
    requires Sound(s, setup)
    ensures Sound(Firing(s, setup.remote), setup)
  {
    if s.resultCollection.Some? {
      assert s.collections[|s.collections| - 1] != Over;
    }
  }

  lemma VisitingKeepsSound(s: State, setup: Setup)
    requires Sound(s, setup)
    ensures Sound(Visiting(s, setup.remote), setup)
  {
  }

  lemma CleanedKeepsSound(s: State, setup: Setup)
    requires Sound(s, setup)
    ensures s.cancelsCleaning > 0 && s.ended ==>
      Sound(s.(handoff := false, cancelsCleaning := s.cancelsCleaning - 1), setup)
    ensures s.evictsCleaning > 0 ==>
      Sound(Leaving(s.(handoff := false, evictsCleaning := s.evictsCleaning - 1), setup.remote), setup)
  {
  }

  lemma CancelledKeepsSound(s: State, setup: Setup, failed: bool)
    requires Sound(s, setup)
    ensures Sound(Cancelled(s, setup.remote, failed), setup)
  {
    hide Sound;
    CleanedKeepsSound(s, setup);
    if s.cancelsCleaning > 0 && s.ended && setup.remote && !failed {
      ObservingKeepsSound(s.(handoff := false, cancelsCleaning := s.cancelsCleaning - 1), setup);
    }
  }

  // Every step keeps the state sound.
  lemma StepKeepsSound(s: State, setup: Setup, step: Step)
    requires Sound(s, setup)
    ensures Sound(After(s, setup, step), setup)
  {
    hide SingleFlight, CleanedUp, FirstDecides, PassedBy, Observing, Ending, Collected, Settling, Finishing, Cancelling;
    hide Cancelled, Firing, Visiting, Leaving;
    match step {
      case OnObserve => if s.ended { ObservingKeepsSound(s, setup); }
      case OnFinalize => EndingKeepsSound(s, setup);
      case OnGetResultFiles => CollectedKeepsSound(s, setup);
      case OnSettle(i, success, early) => SettlingKeepsSound(s, setup, i, success, early);
      case OnFinish(i) => FinishingKeepsSound(s, setup, i);
      case OnCancel => CancellingKeepsSound(s, setup);
      case OnCancelCleaned(failed) => CancelledKeepsSound(s, setup, failed);
      case OnTimer => FiringKeepsSound(s, setup);
      case OnEvictCleaned => CleanedKeepsSound(s, setup);
      case OnCloseVisit => VisitingKeepsSound(s, setup);
      case _ => OtherStepKeepsSound(s, setup, step);
    }
  }

  lemma OtherStepKeepsSound(s: State, setup: Setup, step: Step)
    requires Sound(s, setup)
    requires step.OnSessionEnd? || step.OnEvictWaited? || step.OnClose? || step.OnCloseCleaned? || step.OnCloseClear?
    ensures Sound(After(s, setup, step), setup)
  {
  }

  // ---- whole runs ----

  // The state after some steps of one started run or task.
  function StateAfter(setup: Setup, steps: seq<Step>): State {
    if steps == [] then Fresh(setup.staged)
    else After(StateAfter(setup, steps[..|steps| - 1]), setup, steps[|steps| - 1])
  }

  lemma {:induction false} AlwaysSound(setup: Setup, steps: seq<Step>)
    ensures Sound(StateAfter(setup, steps), setup)
  {
    hide Sound, After;
    if steps == [] {
      FreshIsSound(setup);
    } else {
      AlwaysSound(setup, steps[..|steps| - 1]);
      StepKeepsSound(StateAfter(setup, steps[..|steps| - 1]), setup, steps[|steps| - 1]);
    }
  }

  lemma OneMoreStep(setup: Setup, steps: seq<Step>, k: nat)
    requires k < |steps|
    ensures StateAfter(setup, steps[..k + 1]) == After(StateAfter(setup, steps[..k]), setup, steps[k])
  {
    hide After;
    assert steps[..k + 1][..k] == steps[..k];
  }

  lemma NoSteps(setup: Setup, steps: seq<Step>)
    ensures StateAfter(setup, steps[..0]) == Fresh(setup.staged) && steps[..|steps|] == steps
  {
  }

  // A result request that comes after close() has passed the record, and before the
  // finally callback of its first collection.
  predicate RequestsAgain(s: State, step: Step) {
    && step.OnGetResultFiles? && s.inTable && s.handoff && s.closing.Visited?
    && |s.collections| == 1 && s.collections[0].Settled?
  }

  lemma SecondStart(s: State, setup: Setup, step: Step)
    requires Sound(s, setup)
    ensures |After(s, setup, step).collections| == 2 <==> |s.collections| == 2 || RequestsAgain(s, step)
  {
    if step.OnGetResultFiles? {
      StartsAgain(s, setup);
    } else {
      hide After;
    }
  }

  lemma StartsAgain(s: State, setup: Setup)
    requires Sound(s, setup)
    ensures |Collected(s, setup.outputEnabled).collections| == 2 <==>
      |s.collections| == 2 || RequestsAgain(s, OnGetResultFiles)
  {
  }

  // A terminal record in the table of an open manager that nothing will take out.
  predicate Stranded(s: State) {
    && s.terminal && s.inTable && s.closing.Open? && !s.retentionTimer
    && s.evictsCleaning == 0 && s.evictsWaiting == 0
    && forall i :: 0 <= i < |s.collections| ==> s.collections[i] == Over
  }

  // No terminal record is stranded, and a record with a staged handoff that is gone from
  // the table was cleaned up, or at least tried to be, if and only if some call began the
  // cleanup before the finally callback of an early-failed collection dropped the handoff.
  lemma NothingIsStranded(setup: Setup, steps: seq<Step>)
    ensures
      var last := StateAfter(setup, steps);
      && !Stranded(last)
      && (setup.staged && !last.inTable ==>
            !last.first.NotYet? && (last.cleanupAttempted <==> last.first.CleanupBegun?))
  {
    hide StateAfter, SingleFlight, PassedBy;
    AlwaysSound(setup, steps);
  }

  ghost predicate FailsEarly(steps: seq<Step>) {
    exists step :: step in steps && step.OnSettle? && step.early
  }

  // Only a collection that failed early drops a handoff uncleaned.
  lemma {:induction false} DroppedOnlyAfterFailure(setup: Setup, steps: seq<Step>)
    ensures StateAfter(setup, steps).first.DroppedUncleaned? ==> FailsEarly(steps)
    ensures StateAfter(setup, steps).failedEarly ==> FailsEarly(steps)
  {
    hide Sound, After;
    AlwaysSound(setup, steps);
    assert StateAfter(setup, steps).first.DroppedUncleaned? ==> StateAfter(setup, steps).failedEarly by {
      DroppedFailed(StateAfter(setup, steps), setup);
    }
    if steps != [] {
      var front, step := steps[..|steps| - 1], steps[|steps| - 1];
      DroppedOnlyAfterFailure(setup, front);
      assert forall x :: x in front ==> x in steps;
      assert step in steps;
    }
  }

  lemma DroppedFailed(s: State, setup: Setup)
    requires Sound(s, setup)
    ensures s.first.DroppedUncleaned? ==> s.failedEarly
    ensures |s.collections| <= if s.closing.Open? then 1 else 2
  {
  }

  // At most one collection is started without close(), at most two with it, and two
  // exactly when a result request comes between close() and the first collection's
  // finally callback.
  lemma {:induction false} CollectionsAreBounded(setup: Setup, steps: seq<Step>)
    ensures |StateAfter(setup, steps).collections| <= 2
    ensures OnClose !in steps ==> StateAfter(setup, steps).closing.Open? && |StateAfter(setup, steps).collections| <= 1
    ensures |StateAfter(setup, steps).collections| == 2 <==> SomeRequestAgain(setup, steps)
  {
    hide Sound, After, RequestsAgain, SomeRequestAgain;
    AlwaysSound(setup, steps);
    DroppedFailed(StateAfter(setup, steps), setup);
    if steps == [] {
      NoRequestYet(setup);
    } else {
      var front, step := steps[..|steps| - 1], steps[|steps| - 1];
      CollectionsAreBounded(setup, front);
      AlwaysSound(setup, front);
      SecondStart(StateAfter(setup, front), setup, step);
      OneMoreRequest(setup, steps);
      assert step in steps && forall x :: x in front ==> x in steps;
    }
  }

  lemma NoRequestYet(setup: Setup)
    ensures !SomeRequestAgain(setup, [])
  {
  }

  lemma OneMoreRequest(setup: Setup, steps: seq<Step>)
    requires steps != []
    ensures
      var front := steps[..|steps| - 1];
      SomeRequestAgain(setup, steps) <==>
        SomeRequestAgain(setup, front) || RequestsAgain(StateAfter(setup, front), steps[|steps| - 1])
  {
    hide RequestsAgain, StateAfter;
    var n := |steps| - 1;
    var front := steps[..n];
    forall k | 0 <= k < n ensures front[..k] == steps[..k] && front[k] == steps[k] {
    }
  }

  ghost predicate SomeRequestAgain(setup: Setup, steps: seq<Step>) {
    exists k :: 0 <= k < |steps| && RequestsAgain(StateAfter(setup, steps[..k]), steps[k])
  }
}
