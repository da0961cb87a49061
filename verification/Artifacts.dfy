// The record that CodexAgentManager keeps of a run, and RemoteAgentManager of a task.  Each
// method is one uninterrupted step between two awaits and does what ArtifactStates says of
// that step.
module Artifacts {
  import opened Wrappers
  import opened ArtifactStates

  datatype Answer = NotFound | NotTerminal | NotRequested | Cached | Awaits(collection: nat)

  // Which disposal of the handoff came first.
  function Earlier(first: Disposal, now: Disposal): Disposal {
    if first.NotYet? then now else first
  }

  class AgentRecord {
    const setup: Setup
    // ended: the run or session has a final status; terminal: the manager acted on it
    var ended: bool
    var terminal: bool
    var handoff: bool
    var resultFiles: bool
    var resultCollection: Option<nat>
    var retentionTimer: bool
    var inTable: bool
    var closing: Closing
    var collections: seq<Collection>
    // Suspended calls: evictions in their cleanup or waiting for the child, and cancels.
    var evictsCleaning: nat
    var evictsWaiting: nat
    var cancelsCleaning: nat
    // Whether the cleanup of the staged handoff was ever begun, whether a collection ever
    // failed before it, and which of the two disposals came first.
    var cleanupAttempted: bool
    var failedEarly: bool
    var first: Disposal

    function Now(): State
      reads this
    {
      State(
        ended, terminal, handoff, resultFiles, resultCollection, retentionTimer, inTable, closing, collections,
        evictsCleaning, evictsWaiting, cancelsCleaning, cleanupAttempted, failedEarly, first)
    }

    ghost predicate Valid()
      reads this
    {
      Sound(Now(), setup)
    }

    // A started run or task.
    constructor (setup: Setup)
      ensures Valid() && this.setup == setup && Now() == Fresh(setup.staged)
    {
      this.setup, handoff := setup, setup.staged;
      ended, terminal, resultFiles, resultCollection, retentionTimer := false, false, false, None, false;
      inTable, closing, collections := true, Open, [];
      evictsCleaning, evictsWaiting, cancelsCleaning := 0, 0, 0;
      cleanupAttempted, failedEarly, first := false, false, NotYet;
      new;
      FreshIsSound(setup);
    }

    method ArmRetentionTimer()
      modifies `retentionTimer
      ensures retentionTimer == (old(retentionTimer) || (closing.Open? && inTable))
      ensures Now() == old(Arming(Now()))
    {
      if !closing.Open? || !inTable { return; }
      retentionTimer := true;
    }

    method Observe()
      modifies `terminal, `retentionTimer
      ensures terminal && (old(terminal) ==> retentionTimer == old(retentionTimer))
      ensures Now() == old(Observing(Now()))
    {
      hide Arming;
      if terminal { return; }
      terminal := true;
      ArmRetentionTimer();
    }

    // The run or session ends; of a task the manager learns later.
    method End()
      modifies `ended, `terminal, `retentionTimer
      ensures !setup.remote ==> terminal && (old(terminal) ==> retentionTimer == old(retentionTimer))
      ensures setup.remote ==> ended && terminal == old(terminal) && retentionTimer == old(retentionTimer)
      ensures Now() == old(Ending(Now(), setup.remote))
    {
      hide Arming;
      if setup.remote {
        ended := true;
      } else if !terminal {
        ended, terminal := true, true;
        ArmRetentionTimer();
      }
    }

    // The session of a remote task reaches a final status; the manager may learn of it later.
    method SessionEnds()
      requires Valid() && setup.remote
      modifies `ended
      ensures Valid() && ended && Now() == old(After(Now(), setup, OnSessionEnd))
    {
      hide Sound;
      ghost var before := Now();
      ended := true;
      StepKeepsSound(before, setup, OnSessionEnd);
    }

    // observeTerminal of a remote task
    method ObserveTerminal()
      requires Valid() && ended
      modifies `terminal, `retentionTimer
      ensures Valid() && terminal && (old(terminal) ==> retentionTimer == old(retentionTimer))
      ensures Now() == old(Observing(Now()))
    {
      hide Sound, Observing;
      ObservingKeepsSound(Now(), setup);
      Observe();
    }

    // finalize of a codex run
    method Finalize()
      requires Valid() && !setup.remote
      modifies `ended, `terminal, `retentionTimer
      ensures Valid() && ended && terminal && (old(terminal) ==> retentionTimer == old(retentionTimer))
      ensures Now() == old(Ending(Now(), setup.remote))
    {
      hide Sound, Ending;
      EndingKeepsSound(Now(), setup);
      EndsTheRun(Now(), setup);
      End();
    }

    // getResultFiles up to its await.  Concurrent callers await the same collection; one
    // is started only if none is running and the handoff is still there.
    method GetResultFiles() returns (answer: Answer)
      requires Valid()
      modifies `terminal, `retentionTimer, `resultCollection, `collections
      ensures Valid()
      ensures answer.NotFound? <==> !inTable
      ensures answer.NotTerminal? <==> inTable && !ended
      ensures answer.NotRequested? <==> inTable && ended && !resultFiles && !(handoff && setup.outputEnabled)
      ensures answer.Cached? <==> inTable && ended && resultFiles
      ensures answer.Awaits? ==> resultCollection == Some(answer.collection) && terminal
      ensures answer.Awaits? ==>
        collections == old(collections) + if old(resultCollection).Some? then [] else [Collecting]
      ensures terminal == (old(terminal) || (inTable && ended))
      ensures answer.Awaits? ==> !retentionTimer
      ensures answer.NotFound? || answer.NotTerminal? || (old(terminal) && !answer.Awaits?) ==>
        retentionTimer == old(retentionTimer)
      ensures answer.Awaits? && old(resultCollection).Some? ==> resultCollection == old(resultCollection)
      ensures !answer.Awaits? ==> collections == old(collections) && resultCollection == old(resultCollection)
      ensures |collections| > |old(collections)| <==>
        inTable && ended && !resultFiles && handoff && setup.outputEnabled && old(resultCollection).None?
      ensures |collections| == 2 && |old(collections)| == 1 ==> closing.Visited? && old(collections)[0].Settled?
      ensures Now() == old(Collected(Now(), setup.outputEnabled))
    {
      hide Sound, Observing, Joining;
      CollectedKeepsSound(Now(), setup);
      CollectionTells(Now(), setup);
      if !inTable { return NotFound; }
      if !ended { return NotTerminal; }
      Observe();
      if resultFiles { return Cached; }
      if !handoff || !setup.outputEnabled { return NotRequested; }
      StartOrJoin();
      answer := Awaits(resultCollection.value);
    }

    method StartOrJoin()
      modifies `retentionTimer, `resultCollection, `collections
      ensures resultCollection.Some? && !retentionTimer
      ensures old(resultCollection).Some? ==>
        resultCollection == old(resultCollection) && collections == old(collections)
      ensures old(resultCollection).None? ==> collections == old(collections) + [Collecting]
      ensures Now() == old(Joining(Now()))
    {
      retentionTimer := false;
      if resultCollection.None? {
        collections := collections + [Collecting];
        resultCollection := Some(|collections| - 1);
      }
    }

    // A collection settles.  Its result is installed only while the record is in the table.
    method Settle(i: nat, success: bool, early: bool)
      requires Valid() && i < |collections| && collections[i].Collecting? && (success ==> !early)
      modifies `collections, `resultFiles, `cleanupAttempted, `failedEarly, `first
      ensures Valid()
      ensures collections == old(collections)[i := Settled(early)]
      ensures resultFiles == (old(resultFiles) || (success && inTable))
      ensures failedEarly == (old(failedEarly) || early) && cleanupAttempted == (old(cleanupAttempted) || !early)
      ensures Now() == old(Settling(Now(), i, success, early))
    {
      hide Sound, BeginningCleanup;
      SettlingKeepsSound(Now(), setup, i, success, early);
      if early { failedEarly := true; } else { BeginCleanup(); }
      collections := collections[i := Settled(early)];
      if success && inTable { resultFiles := true; }
    }

    // Its finally callback.  It drops the handoff uncleaned exactly when the collection
    // failed early and no cancel, eviction or close has begun the cleanup before.
    method Finish(i: nat)
      requires Valid() && i < |collections| && collections[i].Settled?
      modifies `collections, `handoff, `resultCollection, `retentionTimer, `first
      ensures first == if old(collections)[i].early then Earlier(old(first), DroppedUncleaned) else old(first)
      ensures Valid()
      ensures collections == old(collections)[i := Over] && !handoff && resultCollection.None?
      ensures retentionTimer == (old(retentionTimer) || (inTable && closing.Open?))
      ensures Now() == old(Finishing(Now(), i))
    {
      hide Sound, Arming, Dropping;
      FinishingKeepsSound(Now(), setup, i);
      DropHandoff(i);
      ArmRetentionTimer();
    }

    method DropHandoff(i: nat)
      requires i < |collections| && collections[i].Settled?
      modifies `collections, `handoff, `resultCollection, `first
      ensures first == if old(collections)[i].early then Earlier(old(first), DroppedUncleaned) else old(first)
      ensures collections == old(collections)[i := Over] && !handoff && resultCollection.None?
      ensures Now() == old(Dropping(Now(), i))
    {
      if collections[i].early { first := Earlier(first, DroppedUncleaned); }
      collections := collections[i := Over];
      handoff, resultCollection := false, None;
    }

    // cancelRun / cancelTask up to the cleanup of the handoff.
    method Cancel() returns (cleaning: bool)
      requires Valid() && inTable
      modifies `ended, `terminal, `retentionTimer, `cancelsCleaning, `cleanupAttempted, `first
      ensures Valid() && ended && (cleaning <==> handoff)
      ensures cancelsCleaning == old(cancelsCleaning) + (if cleaning then 1 else 0)
      ensures cleanupAttempted <==> old(cleanupAttempted) || handoff
      ensures !cleaning ==> terminal
      ensures Now() == old(Cancelling(Now(), setup.remote))
    {
      hide Sound, Ending, Observing, BeginningCleanup;
      CancellingKeepsSound(Now(), setup);
      EndsTheRun(Now(), setup);
      End();
      cleaning := handoff;
      if cleaning {
        BeginCleanup();
        cancelsCleaning := cancelsCleaning + 1;
      } else if setup.remote {
        Observe();
      }
    }

    // The cleanup is over; a failed one ends the call before a remote task is observed.
    method CancelCleaned(failed: bool)
      requires Valid() && cancelsCleaning > 0 && ended
      modifies `terminal, `retentionTimer, `handoff, `cancelsCleaning
      ensures Valid() && !handoff && cancelsCleaning == old(cancelsCleaning) - 1 && (!failed ==> terminal)
      ensures Now() == old(Cancelled(Now(), setup.remote, failed))
    {
      hide Sound, Observing;
      CancelledKeepsSound(Now(), setup, failed);
      TerminalRun(Now(), setup);
      handoff := false;
      cancelsCleaning := cancelsCleaning - 1;
      if setup.remote && !failed { Observe(); }
    }

    // The retention timer fires: evictRun / evictTask up to its first await.
    method TimerFires()
      requires Valid() && retentionTimer
      modifies `retentionTimer, `resultFiles, `inTable, `evictsCleaning, `evictsWaiting, `cleanupAttempted, `first
      ensures Valid()
      ensures !old(inTable) ==> !inTable && resultFiles == old(resultFiles)
      ensures cleanupAttempted ==
        (old(cleanupAttempted) || (old(inTable) && resultCollection.None? && handoff && !old(resultFiles)))
      ensures old(inTable) && resultCollection.Some? ==>
        inTable && resultFiles == old(resultFiles) && (closing.Open? ==> retentionTimer)
      ensures old(inTable) && resultCollection.None? && handoff && !old(resultFiles) ==>
        inTable && evictsCleaning == old(evictsCleaning) + 1 && cleanupAttempted
      ensures old(inTable) && resultCollection.None? && !(handoff && !old(resultFiles)) ==>
        !resultFiles && (if setup.remote then !inTable else inTable && evictsWaiting == old(evictsWaiting) + 1)
      ensures Now() == old(Firing(Now(), setup.remote))
    {
      hide Sound, Arming, Leaving, BeginningCleanup;
      ghost var before := Now();
      FiringKeepsSound(before, setup);
      retentionTimer := false;
      ghost var fired := Now();
      if !inTable { return; }
      if resultCollection.Some? {
        ArmRetentionTimer();
      } else if handoff && !resultFiles {
        BeginCleanup();
        evictsCleaning := evictsCleaning + 1;
      } else {
        LeaveTable();
      }
    }

    // What every call that begins a cleanup is counted by.
    method BeginCleanup()
      modifies `cleanupAttempted, `first
      ensures cleanupAttempted && first == Earlier(old(first), CleanupBegun)
      ensures Now() == old(BeginningCleanup(Now()))
    {
      cleanupAttempted, first := true, Earlier(first, CleanupBegun);
    }

    method LeaveTable()
      modifies `resultFiles, `inTable, `evictsWaiting
      ensures !resultFiles
      ensures inTable == (old(inTable) && !setup.remote)
      ensures evictsWaiting == old(evictsWaiting) + if setup.remote then 0 else 1
      ensures Now() == old(Leaving(Now(), setup.remote))
    {
      resultFiles := false;
      if setup.remote { inTable := false; } else { evictsWaiting := evictsWaiting + 1; }
    }

    method EvictCleaned()
      requires Valid() && evictsCleaning > 0
      modifies `handoff, `resultFiles, `inTable, `evictsCleaning, `evictsWaiting
      ensures Valid() && !handoff && !resultFiles && evictsCleaning == old(evictsCleaning) - 1
      ensures inTable == (old(inTable) && !setup.remote)
      ensures evictsWaiting == old(evictsWaiting) + if setup.remote then 0 else 1
      ensures Now() == old(After(Now(), setup, OnEvictCleaned))
    {
      hide Sound;
      ghost var before := Now();
      handoff := false;
      evictsCleaning := evictsCleaning - 1;
      LeaveTable();
      StepKeepsSound(before, setup, OnEvictCleaned);
    }

    // The child has exited: the run leaves the table.
    method EvictWaited()
      requires Valid() && evictsWaiting > 0
      modifies `inTable, `evictsWaiting
      ensures Valid() && !inTable && evictsWaiting == old(evictsWaiting) - 1
      ensures Now() == old(After(Now(), setup, OnEvictWaited))
    {
      hide Sound;
      ghost var before := Now();
      inTable := false;
      evictsWaiting := evictsWaiting - 1;
      StepKeepsSound(before, setup, OnEvictWaited);
    }

    method Close()
      requires Valid() && closing.Open?
      modifies `closing
      ensures Valid() && closing.Pending?
      ensures Now() == old(After(Now(), setup, OnClose))
    {
      hide Sound;
      ghost var before := Now();
      closing := Pending;
      StepKeepsSound(before, setup, OnClose);
    }

    // The loop of close() comes to this record.
    method CloseVisit()
      requires Valid() && closing.Pending? && inTable
      modifies `retentionTimer, `ended, `terminal, `resultFiles, `resultCollection, `closing, `cleanupAttempted, `first
      ensures Valid() && !retentionTimer && ended
      ensures handoff && !old(resultFiles) ==>
        closing.Cleaning? && cleanupAttempted && resultCollection == old(resultCollection)
      ensures !(handoff && !old(resultFiles)) ==> closing.Visited? && resultCollection.None? && !resultFiles
      ensures Now() == old(Visiting(Now(), setup.remote))
    {
      hide Sound, BeginningCleanup, Retiring;
      VisitingKeepsSound(Now(), setup);
      Retire();
      if handoff && !resultFiles {
        BeginCleanup();
        closing := Cleaning;
      } else {
        resultFiles, resultCollection, closing := false, None, Visited;
      }
    }

    method Retire()
      modifies `retentionTimer, `ended, `terminal
      ensures !retentionTimer && ended && Now() == old(Retiring(Now(), setup.remote))
    {
      retentionTimer, ended := false, true;
      if !setup.remote { terminal := true; }
    }

    method CloseCleaned()
      requires Valid() && closing.Cleaning?
      modifies `handoff, `resultFiles, `resultCollection, `closing
      ensures Valid() && !handoff && !resultFiles && resultCollection.None? && closing.Visited?
      ensures Now() == old(After(Now(), setup, OnCloseCleaned))
    {
      hide Sound;
      ghost var before := Now();
      handoff, resultFiles, resultCollection, closing := false, false, None, Visited;
      StepKeepsSound(before, setup, OnCloseCleaned);
    }

    // Every record was visited, or was gone when the loop came to it.
    method CloseClear()
      requires Valid() && (closing.Visited? || (closing.Pending? && !inTable))
      modifies `inTable, `closing
      ensures Valid() && !inTable && closing.Cleared?
      ensures Now() == old(After(Now(), setup, OnCloseClear))
    {
      hide Sound;
      ghost var before := Now();
      inTable, closing := false, Cleared;
      StepKeepsSound(before, setup, OnCloseClear);
    }
  }

  // ---- whole runs ----

  method Perform(record: AgentRecord, step: Step)
    requires record.Valid()
    modifies record
    ensures record.Valid() && record.Now() == old(After(record.Now(), record.setup, step))
  {
    hide AgentRecord.Valid, Observing, BeginningCleanup, Leaving, Collected, Settling, Finishing, Cancelling, Cancelled;
    hide Firing, Visiting;
    match step
    case OnSessionEnd => if record.setup.remote { record.SessionEnds(); }
    case OnObserve => if record.ended { record.ObserveTerminal(); }
    case OnFinalize => if !record.setup.remote { record.Finalize(); }
    case OnGetResultFiles => var _ := record.GetResultFiles();
    case OnSettle(i, success, early) =>
      SettlesOnlyIf(record.Now(), i, success, early);
      if i < |record.collections| && record.collections[i].Collecting? && !(success && early) {
        record.Settle(i, success, early);
      }
    case OnFinish(i) =>
      FinishesOnlyIf(record.Now(), i);
      if i < |record.collections| && record.collections[i].Settled? { record.Finish(i); }
    case OnCancel =>
      ActsOnlyIf(record.Now(), record.setup.remote);
      if record.inTable { var _ := record.Cancel(); }
    case OnCancelCleaned(failed) =>
      ActsOnlyIf(record.Now(), record.setup.remote);
      if record.cancelsCleaning > 0 && record.ended { record.CancelCleaned(failed); }
    case OnTimer =>
      ActsOnlyIf(record.Now(), record.setup.remote);
      if record.retentionTimer { record.TimerFires(); }
    case OnEvictCleaned => if record.evictsCleaning > 0 { record.EvictCleaned(); }
    case OnEvictWaited => if record.evictsWaiting > 0 { record.EvictWaited(); }
    case OnClose => if record.closing.Open? { record.Close(); }
    case OnCloseVisit =>
      ActsOnlyIf(record.Now(), record.setup.remote);
      if record.closing.Pending? && record.inTable { record.CloseVisit(); }
    case OnCloseCleaned => if record.closing.Cleaning? { record.CloseCleaned(); }
    case OnCloseClear =>
      if record.closing.Visited? || (record.closing.Pending? && !record.inTable) { record.CloseClear(); }
  }

  // Steps that cannot happen at their point.
  lemma SettlesOnlyIf(s: State, i: nat, success: bool, early: bool)
    ensures i >= |s.collections| || !s.collections[i].Collecting? || (success && early) ==>
      Settling(s, i, success, early) == s
  {
  }

  lemma FinishesOnlyIf(s: State, i: nat)
    ensures i >= |s.collections| || !s.collections[i].Settled? ==> Finishing(s, i) == s
  {
  }

  lemma ActsOnlyIf(s: State, remote: bool)
    ensures !s.inTable ==> Cancelling(s, remote) == s
    ensures forall failed :: s.cancelsCleaning == 0 || !s.ended ==> Cancelled(s, remote, failed) == s
    ensures !s.retentionTimer ==> Firing(s, remote) == s
    ensures !(s.closing.Pending? && s.inTable) ==> Visiting(s, remote) == s
  {
  }

  // Every interleaving is one of ArtifactStates.
  method Run(setup: Setup, steps: seq<Step>) returns (last: State)
    ensures last == StateAfter(setup, steps)
    ensures !Stranded(last) && |last.collections| <= 2
    ensures OnClose !in steps ==> |last.collections| <= 1
    ensures |last.collections| == 2 <==> SomeRequestAgain(setup, steps)
    ensures setup.staged && !last.inTable ==>
      !last.first.NotYet? && (last.cleanupAttempted <==> last.first.CleanupBegun?)
    ensures last.first.DroppedUncleaned? ==> FailsEarly(steps)
  {
    hide Sound, After, Stranded, SomeRequestAgain, FailsEarly;
    var record := new AgentRecord(setup);
    for k := 0 to |steps|
      invariant record.Valid() && fresh(record) && record.setup == setup
      invariant record.Now() == StateAfter(setup, steps[..k])
    {
      assert steps[..k + 1][..k] == steps[..k];
      Perform(record, steps[k]);
    }
    assert steps[..|steps|] == steps;
    last := record.Now();
    NothingIsStranded(setup, steps);
    DroppedOnlyAfterFailure(setup, steps);
    CollectionsAreBounded(setup, steps);
  }

  // Two collections of one run: close() comes between a collection's two callbacks, and
  // a result request comes before the second one.
  method CollectedTwice() returns (started: nat)
    ensures started == 2
  {
    hide StateAfter, After, Sound, Stranded, SomeRequestAgain, FailsEarly;
    var setup := Setup(false, true, true);
    var steps := [OnFinalize, OnGetResultFiles, OnSettle(0, true, false), OnClose, OnCloseVisit, OnGetResultFiles];
    var last := Run(setup, steps);
    started := |last.collections|;
    SixSteps(setup, steps);
    SettledInTime();
    RequestedAfterClose();
  }

  // A successful collection has settled, and its finally callback is still to come.
  function Installed(): State {
    Fresh(true).(
      ended := true, terminal := true, collections := [Settled(false)], resultCollection := Some(0),
      resultFiles := true, cleanupAttempted := true, first := CleanupBegun)
  }

  lemma SettledInTime()
    ensures
      var setup := Setup(false, true, true);
      var finalized := After(Fresh(true), setup, OnFinalize);
      After(After(finalized, setup, OnGetResultFiles), setup, OnSettle(0, true, false)) == Installed()
  {
    var setup := Setup(false, true, true);
    var s1 := After(Fresh(true), setup, OnFinalize);
    assert s1 == Fresh(true).(ended := true, terminal := true, retentionTimer := true);
    var s2 := After(s1, setup, OnGetResultFiles);
    assert s2 == s1.(retentionTimer := false, collections := [Collecting], resultCollection := Some(0));
  }

  lemma RequestedAfterClose()
    ensures
      var setup := Setup(false, true, true);
      var visited := After(After(Installed(), setup, OnClose), setup, OnCloseVisit);
      |After(visited, setup, OnGetResultFiles).collections| == 2
  {
    var setup := Setup(false, true, true);
    var s4 := After(Installed(), setup, OnClose);
    assert s4 == Installed().(closing := Pending);
    var s5 := After(s4, setup, OnCloseVisit);
    assert s5 == s4.(closing := Visited, resultFiles := false, resultCollection := None);
  }

  lemma SixSteps(setup: Setup, steps: seq<Step>)
    requires |steps| == 6
    ensures
      var s := Fresh(setup.staged);
      var half := After(After(After(s, setup, steps[0]), setup, steps[1]), setup, steps[2]);
      StateAfter(setup, steps) == After(After(After(half, setup, steps[3]), setup, steps[4]), setup, steps[5])
  {
    hide StateAfter, After;
    NoSteps(setup, steps);
    OneMoreStep(setup, steps, 0);
    OneMoreStep(setup, steps, 1);
    OneMoreStep(setup, steps, 2);
    OneMoreStep(setup, steps, 3);
    OneMoreStep(setup, steps, 4);
    OneMoreStep(setup, steps, 5);
  }

  // A staged handoff that nobody ever tried to remove: the collection failed before the
  // block that ends in the cleanup (normalising the handoff, checking that files were
  // requested, or resolving the workspace), and its finally callback dropped the handoff.
  method NeverCleanedUp() returns (inTable: bool, cleanupAttempted: bool)
    ensures !inTable && !cleanupAttempted
  {
    hide StateAfter, After, Sound, Stranded, SomeRequestAgain, FailsEarly;
    var setup := Setup(true, true, true);
    var steps := [OnSessionEnd, OnGetResultFiles, OnSettle(0, false, true), OnFinish(0), OnTimer, OnObserve];
    var last := Run(setup, steps);
    SixSteps(setup, steps);
    CollectionRuns();
    DroppedUncollected();
    return last.inTable, last.cleanupAttempted;
  }

  // The collection of an ended remote task runs.
  function Running(): State {
    Fresh(true).(ended := true, terminal := true, collections := [Collecting], resultCollection := Some(0))
  }

  lemma CollectionRuns()
    ensures
      var setup := Setup(true, true, true);
      After(After(Fresh(true), setup, OnSessionEnd), setup, OnGetResultFiles) == Running()
  {
    var s1 := After(Fresh(true), Setup(true, true, true), OnSessionEnd);
    assert s1 == Fresh(true).(ended := true);
  }

  lemma DroppedUncollected()
    ensures
      var setup := Setup(true, true, true);
      var settled := After(Running(), setup, OnSettle(0, false, true));
      var last := After(After(After(settled, setup, OnFinish(0)), setup, OnTimer), setup, OnObserve);
      !last.inTable && !last.cleanupAttempted
  {
    var setup := Setup(true, true, true);
    var s3 := After(Running(), setup, OnSettle(0, false, true));
    assert s3 == Running().(collections := [Settled(true)], failedEarly := true);
    var s4 := After(s3, setup, OnFinish(0));
    assert s4 == s3.(
      collections := [Over], handoff := false, resultCollection := None, retentionTimer := true,
      first := DroppedUncleaned);
    var s5 := After(s4, setup, OnTimer);
    assert s5 == s4.(retentionTimer := false, inTable := false);
  }

  // The same failure with a cancel before its callbacks: the cancel has begun the cleanup.
  method CancelledInTime() returns (inTable: bool, cleanupAttempted: bool, failedEarly: bool)
    ensures !inTable && cleanupAttempted && failedEarly
  {
    hide StateAfter, After, Sound, Stranded, SomeRequestAgain, FailsEarly;
    var setup := Setup(true, true, true);
    var steps := [OnSessionEnd, OnGetResultFiles, OnCancel, OnSettle(0, false, true), OnFinish(0), OnTimer];
    var last := Run(setup, steps);
    SixSteps(setup, steps);
    CollectionRuns();
    CleanedInTime();
    return last.inTable, last.cleanupAttempted, last.failedEarly;
  }

  lemma CleanedInTime()
    ensures
      var setup := Setup(true, true, true);
      var settled := After(After(Running(), setup, OnCancel), setup, OnSettle(0, false, true));
      var last := After(After(settled, setup, OnFinish(0)), setup, OnTimer);
      !last.inTable && last.cleanupAttempted && last.failedEarly
  {
    var setup := Setup(true, true, true);
    var s3 := After(Running(), setup, OnCancel);
    assert s3 == Running().(cleanupAttempted := true, first := CleanupBegun, cancelsCleaning := 1);
    var s4 := After(s3, setup, OnSettle(0, false, true));
    assert s4 == s3.(collections := [Settled(true)], failedEarly := true);
    var s5 := After(s4, setup, OnFinish(0));
    assert s5 == s4.(
      collections := [Over], handoff := false, resultCollection := None, retentionTimer := true);
  }
}
