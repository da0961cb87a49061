// CliProvider.runStream: newline framing of a command's stdout, the event grammar
// enforced by `accept`, and the tool calls that are held back until the stream is complete.
module CliStream {
  import opened Wrappers
  import opened Text
  import Process = ControlledCommand

  datatype Finish = Stop | ToolCalls | Length | FinishedWithError

  datatype Call = Call(id: string, name: string, arguments: string)

  datatype Event =
    | Delta(reasoning: bool, text: string)
    | Tool(call: Call)
    | Done(finish: Finish, outputText: string)

  // parseJsonStreamEvent: nothing (an empty line, an empty delta), an event, or an error.
  datatype Parsed = Nothing | Good(event: Event) | Bad

  datatype Error =
    | Malformed | DataAfterDone | ToolNotOffered | InvalidToolCalls | Oversized
    | CommandFailed | Aborted | MissingDone | Refused | FinishMismatch

  // The foreign parts of a run: the line parser, the offered tool names, the check of a
  // call's arguments, and the refusal patterns of the provider profile.
  datatype Rules = Rules(
    parse: string -> Parsed, offered: set<string>, validArguments: string -> bool, refuses: string -> bool)

  // strictToolCalls
  predicate Strict(rules: Rules, calls: seq<Call>) {
    && |calls| <= 64
    && (forall i :: 0 <= i < |calls| ==>
          && Trim(calls[i].id) != "" && |calls[i].id| <= 512
          && calls[i].name != "" && calls[i].name == Trim(calls[i].name) && |calls[i].name| <= 256
          && rules.validArguments(calls[i].arguments))
    && (forall i, j :: 0 <= i < j < |calls| ==> calls[i].id != calls[j].id)
  }

  type Chunk = Process.Chunk

  // How the command's chunk sequence ended, seen from the generator.
  datatype Ending = Ended | Failing | Aborting

  const MAX_BYTES := 2097152

  // ---- the accept closure ----

  datatype State = State(yielded: seq<Event>, calls: seq<Call>, terminal: Option<Event>, error: Option<Error>)

  const START := State([], [], None, None)

  function Accept(rules: Rules, st: State, line: string): State {
    if st.error.Some? then st
    else match rules.parse(Trim(line))
      case Nothing => st
      case Bad => st.(error := Some(Malformed))
      case Good(event) =>
        if st.terminal.Some? then st.(error := Some(DataAfterDone))
        else match event
          case Tool(call) =>
            if call.name !in rules.offered then st.(error := Some(ToolNotOffered))
            else if !Strict(rules, st.calls + [call]) then st.(error := Some(InvalidToolCalls))
            else st.(calls := st.calls + [call])
          case Done(_, _) => st.(terminal := Some(event))
          case Delta(_, _) => st.(yielded := st.yielded + [event])
  }

  function AcceptAll(rules: Rules, lines: seq<string>): State {
    if lines == [] then START
    else Accept(rules, AcceptAll(rules, lines[..|lines| - 1]), lines[|lines| - 1])
  }

  // What a consumer gets: the yielded events, and how the generator ended.
  datatype Outcome = Outcome(yielded: seq<Event>, error: Option<Error>)

  // The end of the generator once every line was accepted.
  function Conclude(rules: Rules, st: State, ending: Ending): Outcome {
    if st.error.Some? then Outcome(st.yielded, st.error)
    else if ending == Aborting then Outcome(st.yielded, Some(Aborted))
    else if st.terminal.None? || !st.terminal.value.Done? then Outcome(st.yielded, Some(MissingDone))
    else if rules.refuses(st.terminal.value.outputText) then Outcome(st.yielded, Some(Refused))
    else if (st.calls != []) != (st.terminal.value.finish == ToolCalls) then Outcome(st.yielded, Some(FinishMismatch))
    else Outcome(st.yielded + Tools(st.calls) + [st.terminal.value], None)
  }

  function Tools(calls: seq<Call>): seq<Event> {
    seq(|calls|, i requires 0 <= i < |calls| => Tool(calls[i]))
  }

  // The whole run on the whole text: no chunks, no buffer.
  function OnText(rules: Rules, text: string, ending: Ending): Outcome {
    if ending == Failing then
      var st := AcceptAll(rules, Lines(text));
      Outcome(st.yielded, Some(if st.error.Some? then st.error.value else CommandFailed))
    else
      Conclude(rules, AcceptAll(rules, Lines(text) + [Rest(text)]), ending)
  }

  // ---- the generator ----

  function Stdout(chunks: seq<Chunk>): string {
    if chunks == [] then ""
    else
      var last := chunks[|chunks| - 1];
      Stdout(chunks[..|chunks| - 1]) + if last.isStdout then last.text else ""
  }

  lemma AcceptNeverBlamesTheCommand(rules: Rules, lines: seq<string>)
    ensures AcceptAll(rules, lines).error != Some(CommandFailed)
  {
    hide Strict, Trim;
  }

  lemma AcceptOneMore(rules: Rules, lines: seq<string>, line: string)
    ensures AcceptAll(rules, lines + [line]) == Accept(rules, AcceptAll(rules, lines), line)
  {
    assert (lines + [line])[..|lines|] == lines;
  }

  lemma {:induction false} AnErrorSticks(rules: Rules, lines: seq<string>, more: seq<string>)
    requires AcceptAll(rules, lines).error.Some?
    ensures AcceptAll(rules, lines + more) == AcceptAll(rules, lines)
    decreases |more|
  {
    if more == [] {
      assert lines + more == lines;
    } else {
      AnErrorSticks(rules, lines, more[..|more| - 1]);
      assert (lines + more)[..|lines + more| - 1] == lines + more[..|more| - 1];
    }
  }

  // One stdout chunk: take every complete line off the pending text.
  method Drain(rules: Rules, st0: State, pending0: string, ghost before: seq<string>)
    returns (st: State, pending: string)
    requires st0 == AcceptAll(rules, before) && st0.error.None?
    ensures st == AcceptAll(rules, before + Lines(pending0))
    ensures st.error.None? ==> pending == Rest(pending0)
  {
    hide Accept, AcceptAll, Strict, Lines, Rest, NewlineAt;
    st, pending := st0, pending0;
    ghost var taken := before;
    assert taken + Lines(pending) == before + Lines(pending0);
    FirstOfLines(pending);
    while st.error.None? && NewlineAt(pending) != |pending|
      invariant st == AcceptAll(rules, taken)
      invariant taken + Lines(pending) == before + Lines(pending0)
      invariant Rest(pending) == Rest(pending0)
      invariant NewlineAt(pending) == |pending| ==> Lines(pending) == [] && Rest(pending) == pending
      decreases |pending|
    {
      var newlineIndex := NewlineAt(pending);
      var line := pending[..newlineIndex];
      FirstOfLines(pending);
      AcceptOneMore(rules, taken, line);
      assert taken + Lines(pending) == taken + [line] + Lines(pending[newlineIndex + 1..]);
      st := Accept(rules, st, line);
      taken := taken + [line];
      pending := pending[newlineIndex + 1..];
      FirstOfLines(pending);
    }
    if st.error.Some? {
      AnErrorSticks(rules, taken, Lines(pending));
    } else {
      assert taken + Lines(pending) == taken;
    }
  }

  // The number of leading chunks whose stdout stays within the limit.
  function Fitting(chunks: seq<Chunk>): (k: nat)
    ensures k <= |chunks|
  {
    if chunks == [] then 0
    else if ByteLength(Stdout(chunks)) <= MAX_BYTES then |chunks|
    else Fitting(chunks[..|chunks| - 1])
  }

  // Within the limit a run is a function of the whole text; beyond it the run ends like
  // a failing command whose output stopped before the chunk that crossed the limit.
  method RunStream(rules: Rules, chunks: seq<Chunk>, ending: Ending) returns (r: Outcome)
    ensures ByteLength(Stdout(chunks)) <= MAX_BYTES ==> r == OnText(rules, Stdout(chunks), ending)
    ensures ByteLength(Stdout(chunks)) > MAX_BYTES ==>
      var cut := OnText(rules, Stdout(chunks[..Fitting(chunks)]), Failing);
      r == if cut.error == Some(CommandFailed) then cut.(error := Some(Oversized)) else cut
  {
    hide Accept, AcceptAll, Strict, ByteLength, Conclude, OnText, Lines, Rest, Stdout, Fitting;
    NothingReceived(rules);
    assert chunks[..0] == [];
    var pendingStdout, bytes, st := "", 0, START;
    for i := 0 to |chunks|
      invariant bytes == ByteLength(Stdout(chunks[..i])) <= MAX_BYTES
      invariant st == AcceptAll(rules, Lines(Stdout(chunks[..i]))) && st.error.None?
      invariant pendingStdout == Rest(Stdout(chunks[..i]))
    {
      ghost var received := Stdout(chunks[..i]);
      StdoutSnoc(chunks, i);
      if !chunks[i].isStdout { continue; }
      var chunk := chunks[i].text;
      ByteLengthAppend(received, chunk);
      bytes := bytes + ByteLength(chunk);
      if bytes > MAX_BYTES {
        Crossing(chunks, i);
        OnAcceptedText(rules, received);
        return Outcome(st.yielded, Some(Oversized));
      }
      FramingIsChunkIndependent(received, chunk);
      st, pendingStdout := Drain(rules, st, pendingStdout + chunk, Lines(received));
      if st.error.Some? {
        AcceptNeverBlamesTheCommand(rules, Lines(Stdout(chunks[..i + 1])));
        FittingIsTheLargest(chunks, i + 1);
        FittingIsTheLargest(chunks, |chunks|);
        assert chunks[..|chunks|] == chunks;
        EarlyError(rules, chunks, i + 1, |chunks|, ending);
        EarlyError(rules, chunks, i + 1, Fitting(chunks), Failing);
        return Outcome(st.yielded, st.error);
      }
    }
    assert chunks[..|chunks|] == chunks;
    OnAcceptedText(rules, Stdout(chunks));
    if ending == Failing { return Outcome(st.yielded, Some(CommandFailed)); }
    r := Conclude(rules, Accept(rules, st, pendingStdout), ending);
  }

  lemma NothingReceived(rules: Rules)
    ensures Stdout([]) == "" && ByteLength("") == 0 && Rest("") == ""
    ensures AcceptAll(rules, Lines("")) == START
  {
  }

  lemma OnAcceptedText(rules: Rules, text: string)
    requires AcceptAll(rules, Lines(text)).error.None?
    ensures
      var st := AcceptAll(rules, Lines(text));
      && OnText(rules, text, Failing) == Outcome(st.yielded, Some(CommandFailed))
      && forall ending :: ending != Failing ==>
        OnText(rules, text, ending) == Conclude(rules, Accept(rules, st, Rest(text)), ending)
  {
    hide Accept, AcceptAll, Conclude, Lines, Rest;
    AcceptOneMore(rules, Lines(text), Rest(text));
  }

  lemma StdoutSnoc(chunks: seq<Chunk>, i: nat)
    requires i < |chunks|
    ensures Stdout(chunks[..i + 1]) == Stdout(chunks[..i]) + if chunks[i].isStdout then chunks[i].text else ""
    ensures !chunks[i].isStdout ==> Stdout(chunks[..i + 1]) == Stdout(chunks[..i])
  {
    assert chunks[..i + 1][..i] == chunks[..i];
  }

  lemma StdoutExtends(chunks: seq<Chunk>, i: nat, k: nat) returns (more: string)
    requires i <= k <= |chunks|
    ensures Stdout(chunks[..k]) == Stdout(chunks[..i]) + more
    decreases k
  {
    if i == k {
      more := "";
    } else {
      var before := StdoutExtends(chunks, i, k - 1);
      StdoutSnoc(chunks, k - 1);
      more := before + if chunks[k - 1].isStdout then chunks[k - 1].text else "";
    }
  }

  lemma {:induction false} FittingIsTheLargest(chunks: seq<Chunk>, k: nat)
    requires k <= |chunks|
    ensures ByteLength(Stdout(chunks[..k])) <= MAX_BYTES <==> k <= Fitting(chunks)
  {
    if ByteLength(Stdout(chunks)) <= MAX_BYTES {
      var more := StdoutExtends(chunks, k, |chunks|);
      assert chunks[..|chunks|] == chunks;
      ByteLengthAppend(Stdout(chunks[..k]), more);
    } else if k == |chunks| {
      assert chunks[..k] == chunks;
    } else {
      assert chunks[..|chunks| - 1][..k] == chunks[..k];
      FittingIsTheLargest(chunks[..|chunks| - 1], k);
    }
  }

  lemma Crossing(chunks: seq<Chunk>, i: nat)
    requires i < |chunks|
    requires ByteLength(Stdout(chunks[..i])) <= MAX_BYTES < ByteLength(Stdout(chunks[..i + 1]))
    ensures Fitting(chunks) == i && ByteLength(Stdout(chunks)) > MAX_BYTES
  {
    FittingIsTheLargest(chunks, i);
    FittingIsTheLargest(chunks, i + 1);
    FittingIsTheLargest(chunks, |chunks|);
    assert chunks[..|chunks|] == chunks;
  }

  lemma EarlyError(rules: Rules, chunks: seq<Chunk>, i: nat, k: nat, ending: Ending)
    requires i <= k <= |chunks|
    requires AcceptAll(rules, Lines(Stdout(chunks[..i]))).error.Some?
    ensures
      var st := AcceptAll(rules, Lines(Stdout(chunks[..i])));
      OnText(rules, Stdout(chunks[..k]), ending) == Outcome(st.yielded, st.error)
  {
    var text := Stdout(chunks[..i]);
    var more := StdoutExtends(chunks, i, k);
    FramingIsChunkIndependent(text, more);
    var rest := Lines(Rest(text) + more);
    AnErrorSticks(rules, Lines(text), rest);
    AnErrorSticks(rules, Lines(text) + rest, [Rest(text + more)]);
  }

  // ---- the grammar of a stream ----

  function Events(rules: Rules, lines: seq<string>): seq<Event> {
    if lines == [] then []
    else
      var parsed := rules.parse(Trim(lines[|lines| - 1]));
      Events(rules, lines[..|lines| - 1]) + if parsed.Good? then [parsed.event] else []
  }

  function Deltas(events: seq<Event>): seq<Event> {
    if events == [] then []
    else Deltas(events[..|events| - 1]) + if events[|events| - 1].Delta? then [events[|events| - 1]] else []
  }

  function Calls(events: seq<Event>): seq<Call> {
    if events == [] then []
    else Calls(events[..|events| - 1]) + if events[|events| - 1].Tool? then [events[|events| - 1].call] else []
  }

  ghost predicate NoneBad(rules: Rules, lines: seq<string>) {
    forall i :: 0 <= i < |lines| ==> rules.parse(Trim(lines[i])) != Bad
  }

  // At most 64 calls with different ids, each with an id that is not blank and at most 512
  // long, a trimmed name at most 256 long, and valid arguments.
  ghost predicate AreStrict(rules: Rules, calls: seq<Call>) {
    && |calls| < 65 && (forall i, j :: 0 <= i < j < |calls| ==> calls[i].id != calls[j].id)
    && forall call :: call in calls ==>
         && Trim(call.id) != "" && |call.id| < 513
         && Trim(call.name) == call.name != "" && |call.name| < 257
         && rules.validArguments(call.arguments)
  }

  lemma StrictChecked(rules: Rules, calls: seq<Call>)
    ensures Strict(rules, calls) <==> AreStrict(rules, calls)
  {
    hide Trim;
    if AreStrict(rules, calls) {
      assert forall i :: 0 <= i < |calls| ==> calls[i] in calls;
    }
  }

  ghost predicate Grammar(rules: Rules, events: seq<Event>) {
    && (forall i :: 0 <= i < |events| - 1 ==> !events[i].Done?)
    && (forall i :: 0 <= i < |events| && events[i].Tool? ==> events[i].call.name in rules.offered)
    && AreStrict(rules, Calls(events))
  }

  function LastDone(events: seq<Event>): Option<Event> {
    if events != [] && events[|events| - 1].Done? then Some(events[|events| - 1]) else None
  }

  // The state in which a reader of these events is, if they keep to the grammar.
  ghost predicate Sorted(rules: Rules, st: State, lines: seq<string>) {
    var events := Events(rules, lines);
    && (st.error.None? <==> NoneBad(rules, lines) && Grammar(rules, events))
    && (st.error.None? ==> st == State(Deltas(events), Calls(events), LastDone(events), None))
    && st.yielded <= Deltas(events)
  }

  // Accepting line by line succeeds exactly on the event sequences of the grammar, and
  // sorts them into deltas, calls and the done event.
  lemma {:induction false} AcceptsTheGrammar(rules: Rules, lines: seq<string>)
    ensures Sorted(rules, AcceptAll(rules, lines), lines)
  {
    hide Grammar, Accept, Sorted;
    if lines == [] {
      EmptyIsSorted(rules);
    } else {
      var n := |lines| - 1;
      AcceptsTheGrammar(rules, lines[..n]);
      assert lines[..n] + [lines[n]] == lines;
      AcceptKeepsSorted(rules, AcceptAll(rules, lines[..n]), lines[..n], lines[n]);
    }
  }

  lemma EmptyIsSorted(rules: Rules)
    ensures Sorted(rules, START, [])
  {
  }

  lemma AcceptKeepsSorted(rules: Rules, st: State, lines: seq<string>, line: string)
    requires Sorted(rules, st, lines)
    ensures Sorted(rules, Accept(rules, st, line), lines + [line])
  {
    hide Grammar, Strict, AreStrict, Deltas, Calls, NoneBad, Events, Trim, LastDone;
    var events, parsed := Events(rules, lines), rules.parse(Trim(line));
    EventsOneMore(rules, lines, line);
    if parsed.Good? {
      SortOneMore(events, parsed.event);
      GrammarOneMore(rules, events, parsed.event);
      if parsed.event.Tool? {
        StrictChecked(rules, Calls(events) + [parsed.event.call]);
      }
    }
  }

  lemma EventsOneMore(rules: Rules, lines: seq<string>, line: string)
    ensures
      var parsed := rules.parse(Trim(line));
      && Events(rules, lines + [line]) == Events(rules, lines) + (if parsed.Good? then [parsed.event] else [])
      && (!parsed.Good? ==> Events(rules, lines + [line]) == Events(rules, lines))
      && (NoneBad(rules, lines + [line]) <==> NoneBad(rules, lines) && parsed != Bad)
  {
    var all := lines + [line];
    assert all[..|lines|] == lines;
    assert forall i :: 0 <= i < |lines| ==> all[i] == lines[i];
  }

  lemma SortOneMore(events: seq<Event>, event: Event)
    ensures Deltas(events + [event]) == if event.Delta? then Deltas(events) + [event] else Deltas(events)
    ensures Calls(events + [event]) == if event.Tool? then Calls(events) + [event.call] else Calls(events)
    ensures LastDone(events + [event]) == if event.Done? then Some(event) else None
  {
    assert (events + [event])[..|events|] == events;
  }

  lemma GrammarOneMore(rules: Rules, events: seq<Event>, event: Event)
    ensures Grammar(rules, events + [event]) <==>
      && Grammar(rules, events) && LastDone(events).None?
      && (event.Tool? ==> event.call.name in rules.offered && AreStrict(rules, Calls(events) + [event.call]))
  {
    hide Deltas, Calls, AreStrict;
    var all := events + [event];
    SortOneMore(events, event);
    assert forall i :: 0 <= i < |events| ==> all[i] == events[i];
    assert all[|events|] == event;
    if event.Tool? {
      FewerCallsAreStrict(rules, Calls(events), event.call);
    }
  }

  lemma FewerCallsAreStrict(rules: Rules, calls: seq<Call>, call: Call)
    ensures AreStrict(rules, calls + [call]) ==> AreStrict(rules, calls)
  {
    var all := calls + [call];
    assert forall i :: 0 <= i < |calls| ==> all[i] == calls[i];
  }

  // The line that first breaks the grammar decides the error, and nothing after it counts.
  lemma FirstViolation(rules: Rules, lines: seq<string>, line: string, more: seq<string>)
    requires AcceptAll(rules, lines).error.None? && AcceptAll(rules, lines + [line]).error.Some?
    ensures
      var events, parsed := Events(rules, lines), rules.parse(Trim(line));
      var st := AcceptAll(rules, lines + [line] + more);
      && st.yielded == Deltas(events) && st.calls == Calls(events)
      && st.error == Some(
           if parsed.Bad? then Malformed
           else if LastDone(events).Some? then DataAfterDone
           else if parsed.Good? && parsed.event.Tool? && parsed.event.call.name in rules.offered then InvalidToolCalls
           else ToolNotOffered)
  {
    hide Grammar, Strict, AreStrict, Deltas, Calls, NoneBad, Events, Trim, LastDone, AcceptAll;
    hide Sorted;
    AcceptsTheGrammar(rules, lines);
    SortedSoFar(rules, AcceptAll(rules, lines), lines);
    AcceptOneMore(rules, lines, line);
    AnErrorSticks(rules, lines + [line], more);
  }

  lemma SortedSoFar(rules: Rules, st: State, lines: seq<string>)
    requires Sorted(rules, st, lines) && st.error.None?
    ensures var events := Events(rules, lines); st == State(Deltas(events), Calls(events), LastDone(events), None)
  {
  }

  // What a stream that keeps to the grammar lacks when it fails.
  lemma FailsFor(rules: Rules, text: string, ending: Ending)
    ensures
      var lines := Lines(text) + [Rest(text)];
      var events, r := Events(rules, lines), OnText(rules, text, ending);
      ending != Failing && NoneBad(rules, lines) && Grammar(rules, events) ==>
        r.error ==
          if ending == Aborting then Some(Aborted)
          else if LastDone(events).None? then Some(MissingDone)
          else if rules.refuses(events[|events| - 1].outputText) then Some(Refused)
          else if (Calls(events) != []) != (events[|events| - 1].finish == ToolCalls) then Some(FinishMismatch)
          else None
  {
    hide Grammar, NoneBad, AcceptAll, Deltas, Calls, Events, Tools;
    AcceptsTheGrammar(rules, Lines(text) + [Rest(text)]);
  }

  // A run completes exactly on a well-formed stream; then it yields the deltas, the tool
  // calls and the done event, in this order, with tool calls exactly when the finish
  // reason says so.
  lemma CompletesIff(rules: Rules, text: string, ending: Ending)
    ensures
      var lines := Lines(text) + [Rest(text)];
      var events := Events(rules, lines);
      var r := OnText(rules, text, ending);
      && (r.error.None? <==>
            && ending == Ended && NoneBad(rules, lines) && Grammar(rules, events)
            && LastDone(events).Some?
            && !rules.refuses(events[|events| - 1].outputText)
            && (Calls(events) != [] <==> events[|events| - 1].finish == ToolCalls))
      && (r.error.None? ==> r.yielded == Deltas(events) + Tools(Calls(events)) + [events[|events| - 1]])
  {
    hide Grammar, NoneBad, AcceptAll, Deltas, Calls, Events, Tools;
    AcceptsTheGrammar(rules, Lines(text) + [Rest(text)]);
  }

  // A failed run has yielded deltas only, in order: no tool call and no done event.
  lemma FailuresYieldDeltasOnly(rules: Rules, text: string, ending: Ending)
    requires OnText(rules, text, ending).error.Some?
    ensures OnText(rules, text, ending).yielded <= Deltas(Events(rules, Lines(text) + [Rest(text)]))
    ensures forall e :: e in OnText(rules, text, ending).yielded ==> e.Delta?
  {
    hide Grammar, NoneBad, Accept, AcceptAll, Trim, Lines, Rest, Events, Deltas;
    var lines := Lines(text) + [Rest(text)];
    AcceptsTheGrammar(rules, Lines(text));
    AcceptsTheGrammar(rules, lines);
    EventsOneMore(rules, Lines(text), Rest(text));
    DeltasAreDeltas(Events(rules, lines));
    if rules.parse(Trim(Rest(text))).Good? {
      SortOneMore(Events(rules, Lines(text)), rules.parse(Trim(Rest(text))).event);
    }
  }

  lemma DeltasAreDeltas(events: seq<Event>)
    ensures forall e :: e in Deltas(events) ==> e.Delta?
  {
  }
}
