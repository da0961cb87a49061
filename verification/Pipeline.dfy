// From the child process of a CLI provider to the registry's streamed run.
module Pipeline {
  import opened Wrappers
  import opened Text
  import Process = ControlledCommand
  import Cli = CliStream
  import opened RunTrace
  import Stream = StreamedLaw
  import opened RunSteps

  // Any interleaving of the child's callbacks, then the provider's reading of what its
  // queue yielded.  If the process generator returns normally, the provider's outcome is
  // that of the child's whole stdout; if it ends otherwise, the provider fails.
  method RunProvider(rules: Cli.Rules, signalAborted: bool, steps: seq<Process.Step>)
    returns (at: Process.Position, r: Cli.Outcome)
    ensures at == Process.Ended(Process.Normal) && ByteLength(Cli.Stdout(Process.Output(steps))) <= Cli.MAX_BYTES ==>
      r == Cli.OnText(rules, Cli.Stdout(Process.Output(steps)), Cli.Ended)
    ensures at != Process.Ended(Process.Normal) ==> r.error.Some?
    ensures at == Process.StateAfter(signalAborted, steps).at
  {
    hide Cli.OnText, Cli.Stdout, Process.Output, ByteLength, Cli.Fitting;
    var yielded, stopped;
    at, yielded, stopped := Process.Run(signalAborted, steps);
    var ending := if at == Process.Ended(Process.Normal) then Cli.Ended else Cli.Failing;
    r := Cli.RunStream(rules, yielded, ending);
    FailingFails(rules, Cli.Stdout(yielded));
    FailingFails(rules, Cli.Stdout(yielded[..Cli.Fitting(yielded)]));
  }

  lemma FailingFails(rules: Cli.Rules, text: string)
    ensures Cli.OnText(rules, text, Cli.Failing).error.Some?
  {
  }

  // ---- what the registry makes of it ----

  function ToStreamEvent(event: Cli.Event): StreamEvent {
    match event
    case Delta(reasoning, text) => if reasoning then ReasoningDelta(text) else OutputDelta(text)
    case Tool(call) => ToolCall(call.id)
    case Done(finish, _) => Done(finish == Cli.FinishedWithError)
  }

  function ToStreamEvents(events: seq<Cli.Event>): seq<StreamEvent> {
    seq(|events|, i requires 0 <= i < |events| => ToStreamEvent(events[i]))
  }

  function ToResponse(r: Cli.Outcome, error: ProviderError): Stream.Response {
    Stream.Live(ToStreamEvents(r.yielded), if r.error.None? then Stream.Finished else Stream.Broken(error))
  }

  // The attempt of the registry that gets this stream.
  function ToTry(r: Cli.Outcome, error: ProviderError): Stream.Try {
    Stream.Try(false, ToResponse(r, error), false, false, false)
  }

  lemma RelayedWhole(response: Stream.Response, events: seq<StreamEvent>)
    requires response.Live? && response.events == events && Done(true) !in events
    ensures forall shown :: Stream.IsRelayOf(response, shown) <==> shown == events
  {
    forall shown | Stream.IsRelayOf(response, shown) ensures shown == events {
    }
  }

  lemma OnlyTheLastIsDone(deltas: seq<Cli.Event>, calls: seq<Cli.Call>, done: Cli.Event)
    requires forall e :: e in deltas ==> e.Delta?
    ensures
      var all := deltas + Cli.Tools(calls) + [done];
      all[|all| - 1] == done && forall i :: 0 <= i < |all| - 1 ==> !all[i].Done?
  {
    var all := deltas + Cli.Tools(calls) + [done];
    forall i | 0 <= i < |all| - 1 ensures !all[i].Done? {
      if i < |deltas| {
        assert all[i] == deltas[i] && deltas[i] in deltas;
      }
    }
  }

  // A completed CLI stream is delivered whole and counts as a success, unless its done
  // event itself reports an error.
  lemma CompletedStreamSucceeds(
    rules: Cli.Rules, text: string, ending: Cli.Ending, error: ProviderError, model: Stream.Model)
    requires Cli.OnText(rules, text, ending).error.None? && model.Supports()
    ensures
      var r := Cli.OnText(rules, text, ending);
      var t, done := ToTry(r, error), r.yielded[|r.yielded| - 1];
      && |r.yielded| > 0 && done.Done?
      && (model.Succeeds(t) <==> done.finish != Cli.FinishedWithError) && (model.Fails(t) <==> !model.Succeeds(t))
      && (model.Succeeds(t) ==>
            forall shown :: Stream.IsRelayOf(t.response, shown) <==> shown == ToStreamEvents(r.yielded))
  {
    hide Cli.OnText, Cli.NoneBad, Cli.Grammar, Cli.Events, Cli.Deltas, Cli.Calls, Cli.Tools, Stream.IsRelayOf;
    hide Stream.Model.Supports;
    Cli.CompletesIff(rules, text, ending);
    var events := Cli.Events(rules, Lines(text) + [Rest(text)]);
    var r := Cli.OnText(rules, text, ending);
    Cli.DeltasAreDeltas(events);
    OnlyTheLastIsDone(Cli.Deltas(events), Cli.Calls(events), events[|events| - 1]);
    var n := |r.yielded| - 1;
    var all := ToStreamEvents(r.yielded);
    assert all[n] == Done(r.yielded[n].finish == Cli.FinishedWithError);
    if r.yielded[n].finish != Cli.FinishedWithError {
      RelayedWhole(ToResponse(r, error), all);
    }
  }

  // A failed CLI stream commits the run, ruling out retry and fallback, exactly when it
  // has delivered a non-empty delta.
  lemma FailedStreamCommitsByDeltas(
    rules: Cli.Rules, text: string, ending: Cli.Ending, error: ProviderError, model: Stream.Model)
    requires Cli.OnText(rules, text, ending).error.Some? && model.Supports()
    ensures
      var r := Cli.OnText(rules, text, ending);
      var t := ToTry(r, error);
      && model.Fails(t) && model.Error(t) == error
      && (model.Shows(t) <==> exists e :: e in r.yielded && e.Delta? && e.text != "")
  {
    hide Cli.OnText, Cli.Deltas, Cli.Events, Stream.Model.Supports;
    Cli.FailuresYieldDeltasOnly(rules, text, ending);
    MatteringDeltas(Cli.OnText(rules, text, ending).yielded);
  }

  lemma MatteringDeltas(events: seq<Cli.Event>)
    requires forall e :: e in events ==> e.Delta?
    ensures Done(true) !in ToStreamEvents(events)
    ensures Stream.MattersUpToError(ToStreamEvents(events)) <==>
      exists e :: e in events && e.Delta? && e.text != ""
  {
    var all := ToStreamEvents(events);
    forall i | 0 <= i < |all| ensures events[i].Delta? && !all[i].Done? {
      assert events[i] in events;
    }
    if e :| e in events && e.Delta? && e.text != "" {
      var i :| 0 <= i < |events| && events[i] == e;
      assert Stream.Matters(all[i]) && Done(true) !in all[..i + 1];
    }
    if i :| 0 <= i < |all| && Stream.Matters(all[i]) && Done(true) !in all[..i + 1] {
      assert events[i] in events && events[i].text != "";
    }
  }
}
