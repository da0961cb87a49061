// The text that a streamed Codex turn writes: aggregate text parts, hold-back of possible JSON
// contracts, monotonic deltas, and the merge of the deltas in the /responses route.
module TurnText {
  import opened Wrappers
  import opened Text
  import opened Words

  // ---- deltas ----

  // computeMonotonicDelta, shared by the bridge and the /responses route.
  function MonotonicDelta(previous: string, next: string): string {
    if next == "" then "" else if previous == "" then next
    else if previous <= next then next[|previous|..] else ""
  }

  // Appending the delta turns the previous text into the next one exactly when the
  // next text extends the previous one.
  lemma DeltaCompletes(previous: string, next: string)
    ensures previous + MonotonicDelta(previous, next) == next <==> previous <= next
    ensures !(previous <= next) ==> MonotonicDelta(previous, next) == ""
  {
    if previous <= next {
      assert previous + next[|previous|..] == next;
    }
  }

  // ---- aggregate text ----

  // textParts.join("\n")
  function Join(parts: seq<string>): string {
    if parts == [] then ""
    else if |parts| == 1 then parts[0]
    else Join(parts[..|parts| - 1]) + "\n" + parts[|parts| - 1]
  }

  // The lines of the joined parts are the parts.
  lemma {:induction false} JoinedParts(parts: seq<string>)
    requires parts != [] && forall i :: 0 <= i < |parts| ==> '\n' !in parts[i]
    ensures Lines(Join(parts) + "\n") == parts && Rest(Join(parts) + "\n") == ""
  {
    hide Lines, Rest;
    var n := |parts| - 1;
    OneLine(parts[n]);
    if n > 0 {
      var front, last := Join(parts[..n]) + "\n", parts[n] + "\n";
      JoinedParts(parts[..n]);
      assert Join(parts) + "\n" == front + last;
      FramingIsChunkIndependent(front, last);
      assert "" + last == last;
    }
  }

  lemma OneLine(line: string)
    requires '\n' !in line
    ensures Lines(line + "\n") == [line] && Rest(line + "\n") == ""
  {
    hide NewlineAt;
    assert NewlineAt(line) == |line|;
    FirstBreak(line, "");
    assert line + "\n" + "" == line + "\n" && NewlineAt("") == 0;
  }

  function Aggregate(parts: seq<string>): string {
    Trim(Join(parts))
  }

  lemma GrowingTheLastPart(parts: seq<string>, delta: string)
    requires parts != []
    ensures Aggregate(parts) <= Aggregate(parts[|parts| - 1 := parts[|parts| - 1] + delta])
  {
    var n := |parts| - 1;
    var grown := parts[n := parts[n] + delta];
    assert grown[..n] == parts[..n];
    assert Join(grown) == Join(parts) + delta;
    TrimExtends(Join(parts), delta);
  }

  lemma AddingAPart(parts: seq<string>, part: string)
    ensures Aggregate(parts) <= Aggregate(parts + [part])
  {
    assert (parts + [part])[..|parts|] == parts;
    assert Join(parts + [part]) == Join(parts) + (if parts == [] then part else "\n" + part);
    TrimExtends(Join(parts), if parts == [] then part else "\n" + part);
  }

  // A delta is appended to its part, or opens a new one.
  function Grown(parts: seq<string>, index: nat, delta: string): seq<string> {
    if index < |parts| then parts[index := parts[index] + delta] else parts + [delta]
  }

  // A delta to the newest part extends the aggregate text.
  lemma GrownExtends(parts: seq<string>, index: nat, delta: string)
    requires index <= |parts|
    ensures
      var grown := Grown(parts, index, delta);
      && |parts| <= |grown| && index < |grown|
      && (index == |grown| - 1 ==> Aggregate(parts) <= Aggregate(grown))
  {
    hide Aggregate;
    if index == |parts| {
      AddingAPart(parts, delta);
    } else if index == |parts| - 1 {
      GrowingTheLastPart(parts, delta);
    }
  }

  // A text that is not extended gets longer all the same.
  ghost predicate Longer(a: string, b: string) {
    |a| <= |b| && (a <= b || |a| < |b|)
  }

  // Whatever part a delta goes to, the aggregate text gets longer.
  lemma GrownIsLonger(parts: seq<string>, index: nat, delta: string)
    requires index <= |parts|
    ensures Longer(Aggregate(parts), Aggregate(Grown(parts, index, delta)))
  {
    hide Trim, Join;
    if index == |parts| {
      AddingAPart(parts, delta);
    } else if delta == "" {
      assert parts[index] + delta == parts[index];
      assert Grown(parts, index, delta) == parts;
    } else {
      var a, b := JoinSplit(parts, index, delta);
      TrimInsert(a, delta, b);
    }
  }

  // A delta to a part is inserted into the joined text after that part.
  lemma {:induction false} JoinSplit(parts: seq<string>, k: nat, delta: string) returns (a: string, b: string)
    requires k < |parts|
    ensures Join(parts) == a + b && Join(parts[k := parts[k] + delta]) == a + delta + b
  {
    var n := |parts| - 1;
    var grown := parts[k := parts[k] + delta];
    if k == n {
      assert grown[..n] == parts[..n];
      a, b := Join(parts), "";
    } else {
      var a', b' := JoinSplit(parts[..n], k, delta);
      assert grown[..n] == parts[..n][k := parts[..n][k] + delta];
      a, b := a', b' + "\n" + parts[n];
    }
  }

  // appendUniqueTextPart
  function AppendUnique(parts: seq<string>, candidate: string): seq<string> {
    var trimmed := Trim(candidate);
    if trimmed == "" then parts
    else if parts != [] && SameWords(parts[|parts| - 1], trimmed) then parts
    else parts + [trimmed]
  }

  lemma AppendUniqueExtends(parts: seq<string>, candidate: string)
    ensures |parts| <= |AppendUnique(parts, candidate)|
    ensures Aggregate(parts) <= Aggregate(AppendUnique(parts, candidate))
  {
    AddingAPart(parts, Trim(candidate));
  }

  // ---- the stream of a turn ----

  datatype Written = OutputDelta(text: string) | ReasoningDelta(text: string)

  function OutputOf(written: seq<Written>): string {
    if written == [] then ""
    else
      var n := |written| - 1;
      OutputOf(written[..n]) + if written[n].OutputDelta? then written[n].text else ""
  }

  function ReasoningOf(written: seq<Written>): string {
    if written == [] then ""
    else
      var n := |written| - 1;
      ReasoningOf(written[..n]) + if written[n].ReasoningDelta? then written[n].text else ""
  }

  // parseJsonContractFromText: only a JSON object can be a contract, and its text is trimmed.
  datatype Parsed = NoContract | Contract(outputText: string, reasoning: string) | BadContract

  ghost predicate ParsesContracts(parse: string -> Parsed) {
    forall s :: parse(s).Contract? ==> s != "" && s[0] == '{'
  }

  datatype Result = DoneText(outputText: string, reasoning: string) | NoDone

  predicate LooksLikeContract(text: string) {
    TrimStart(text) != "" && TrimStart(text)[0] == '{'
  }

  predicate IsHeldBack(streamed: string, next: string, finalized: bool) {
    !finalized && streamed == "" && LooksLikeContract(next)
  }

  // What is streamed once the aggregate text of the parts is shown.
  function NextStreamed(streamed: string, parts: seq<string>): string {
    if IsHeldBack(streamed, Aggregate(parts), false) then streamed else Aggregate(parts)
  }

  // The delta that is written then.
  function NextDelta(streamed: string, parts: seq<string>): string {
    if IsHeldBack(streamed, Aggregate(parts), false) then "" else MonotonicDelta(streamed, Aggregate(parts))
  }

  // The aggregate text of the parts is held back, or extends what was streamed.
  predicate Survives(streamed: string, parts: seq<string>, finalized: bool) {
    IsHeldBack(streamed, Aggregate(parts), finalized) || streamed <= Aggregate(parts)
  }

  class Turn {
    var textParts: seq<string>
    var reasoningParts: seq<string>
    var streamedOutputText: string
    var streamedReasoningText: string
    var outputTextFinalized: bool
    var agentMessageIndexes: map<string, nat>
    var written: seq<Written>

    // The deltas written so far spell the streamed text.
    ghost predicate Faithful()
      reads `streamedOutputText, `written
    {
      OutputOf(written) == streamedOutputText
    }

    // The streamed text is the aggregate text, or nothing while a contract may be forming.
    ghost predicate Current()
      reads `textParts, `streamedOutputText
    {
      if LooksLikeContract(Aggregate(textParts)) then streamedOutputText == ""
      else streamedOutputText == Aggregate(textParts)
    }

    // The stream has seen the current aggregate text, which may have been held back.
    ghost predicate UpToDate()
      reads `textParts, `streamedOutputText
    {
      || streamedOutputText == Aggregate(textParts)
      || (streamedOutputText == "" && LooksLikeContract(Aggregate(textParts)))
    }

    // Some streamed text was lost: the deltas spell less than what counts as streamed.
    ghost predicate Short()
      reads `streamedOutputText, `written
    {
      |OutputOf(written)| < |streamedOutputText|
    }

    ghost predicate ReasoningLive()
      reads `reasoningParts, `streamedReasoningText, `written
    {
      ReasoningOf(written) == streamedReasoningText == Aggregate(reasoningParts)
    }

    ghost predicate Valid()
      reads this
    {
      && !outputTextFinalized && ReasoningLive() && UpToDate()
      && forall id :: id in agentMessageIndexes ==> agentMessageIndexes[id] < |textParts|
    }

    // Everything streamed so far is faithful and up to date.
    ghost predicate Live()
      reads this
    {
      Valid() && Faithful() && Current()
    }

    constructor ()
      ensures Valid() && Live() && written == [] && textParts == [] && agentMessageIndexes == map[]
      ensures streamedOutputText == ""
      ensures reasoningParts == []
    {
      hide Aggregate, OutputOf, ReasoningOf, LooksLikeContract;
      NothingYet();
      textParts, reasoningParts, streamedOutputText, streamedReasoningText := [], [], "", "";
      outputTextFinalized, agentMessageIndexes, written := false, map[], [];
    }

    // A JSON contract may be forming: nothing was streamed yet, and the text begins with a brace.
    ghost predicate HeldBack(next: string)
      reads `outputTextFinalized, `streamedOutputText
    {
      !outputTextFinalized && streamedOutputText == "" && TrimStart(next) != "" && TrimStart(next)[0] == '{'
    }

    // streamAggregateText for output text.  A faithful stream stays faithful exactly
    // when the text is held back or extends what was streamed before.
    method StreamOutput(next: string)
      modifies `streamedOutputText, `written
      ensures ReasoningOf(written) == old(ReasoningOf(written)) && old(written) <= written
      ensures
        if old(HeldBack(next)) then streamedOutputText == old(streamedOutputText) && written == old(written)
        else
          && streamedOutputText == next
          && OutputOf(written) == old(OutputOf(written)) + MonotonicDelta(old(streamedOutputText), next)
      ensures old(Faithful()) ==> (Faithful() <==> old(HeldBack(next)) || old(streamedOutputText) <= next)
    {
      DeltaCompletes(streamedOutputText, next);
      var start := TrimStart(next);
      if !outputTextFinalized && streamedOutputText == "" && start != "" && start[0] == '{' { return; }
      var delta := MonotonicDelta(streamedOutputText, next);
      if delta != "" {
        written := written + [OutputDelta(delta)];
        assert written[..|written| - 1] == old(written);
      }
      streamedOutputText := next;
    }

    // streamAggregateText for reasoning: never held back.
    method StreamReasoning(next: string)
      requires ReasoningOf(written) == streamedReasoningText && streamedReasoningText <= next
      modifies `streamedReasoningText, `written
      ensures OutputOf(written) == old(OutputOf(written)) && old(written) <= written
      ensures ReasoningOf(written) == streamedReasoningText == next
    {
      DeltaCompletes(streamedReasoningText, next);
      var delta := MonotonicDelta(streamedReasoningText, next);
      if delta != "" {
        written := written + [ReasoningDelta(delta)];
        assert written[..|written| - 1] == old(written);
      }
      streamedReasoningText := next;
    }

    // New text parts: the stream shows their aggregate text.  A live stream stays live
    // exactly when that text is held back or extends what was streamed; else it falls
    // short, and a stream that has fallen short never catches up.
    method ShowParts(parts: seq<string>)
      requires Valid() && |textParts| <= |parts| && Longer(Aggregate(textParts), Aggregate(parts))
      modifies `textParts, `streamedOutputText, `written
      ensures Valid() && textParts == parts
      ensures streamedOutputText == NextStreamed(old(streamedOutputText), parts)
      ensures OutputOf(written) == old(OutputOf(written)) + NextDelta(old(streamedOutputText), parts)
      ensures old(Live()) ==> if Survives(old(streamedOutputText), parts, false) then Live() else Short()
      ensures old(Short()) ==> Short()
    {
      hide Aggregate, OutputOf, ReasoningOf, LooksLikeContract, MonotonicDelta, TrimStart;
      BraceFirst(Aggregate(parts));
      Refresh(textParts, parts, streamedOutputText);
      DeltaLength(streamedOutputText, Aggregate(parts));
      DeltaCompletes(streamedOutputText, Aggregate(parts));
      textParts := parts;
      StreamOutput(Aggregate(parts));
    }

    method ShowReasoning(part: string)
      requires ReasoningLive()
      modifies `reasoningParts, `streamedReasoningText, `written
      ensures ReasoningLive() && OutputOf(written) == old(OutputOf(written))
      ensures reasoningParts == AppendUnique(old(reasoningParts), part)
    {
      hide Aggregate, OutputOf, ReasoningOf, AppendUnique;
      AppendUniqueExtends(reasoningParts, part);
      var parts := AppendUnique(reasoningParts, part);
      if parts != reasoningParts {
        reasoningParts := parts;
        StreamReasoning(Aggregate(parts));
      }
    }

    // item/agentMessage/delta.  With a delta to the newest part a live stream stays
    // live; for any part exactly when the aggregate text is held back or extends what
    // was streamed.
    method AgentDelta(itemId: string, delta: string)
      requires Valid()
      modifies `agentMessageIndexes, `textParts, `streamedOutputText, `written
      ensures Valid()
      ensures
        if itemId in old(agentMessageIndexes) then
          var index := old(agentMessageIndexes)[itemId];
          && agentMessageIndexes == old(agentMessageIndexes)
          && textParts == old(textParts)[index := old(textParts)[index] + delta]
          && (old(Live()) && index == |textParts| - 1 ==> Live())
        else
          && agentMessageIndexes == old(agentMessageIndexes)[itemId := |old(textParts)|]
          && textParts == old(textParts) + [delta] && (old(Live()) ==> Live())
      ensures streamedOutputText == NextStreamed(old(streamedOutputText), textParts)
      ensures OutputOf(written) == old(OutputOf(written)) + NextDelta(old(streamedOutputText), textParts)
      ensures old(Live()) ==> if Survives(old(streamedOutputText), textParts, false) then Live() else Short()
      ensures old(Short()) ==> Short()
    {
      hide Aggregate, OutputOf, ReasoningOf, LooksLikeContract, Longer;
      var index, parts := |textParts|, textParts;
      if itemId in agentMessageIndexes {
        index := agentMessageIndexes[itemId];
      } else {
        parts := parts + [""];
      }
      parts := parts[index := parts[index] + delta];
      assert itemId !in agentMessageIndexes ==> parts == textParts + [delta] by { assert "" + delta == delta; }
      GrownExtends(textParts, index, delta);
      GrownIsLonger(textParts, index, delta);
      ExtensionSurvives(textParts, parts, streamedOutputText);
      ShowParts(parts);
      agentMessageIndexes := agentMessageIndexes[itemId := index];
    }

    // rawResponseItem/completed and item/completed: whole parts, never repeated.
    method Completed(outputText: string, reasoningText: string)
      requires Valid()
      modifies `reasoningParts, `streamedReasoningText, `textParts, `streamedOutputText, `written
      ensures Valid()
      ensures textParts == AppendUnique(old(textParts), outputText)
      ensures reasoningParts == AppendUnique(old(reasoningParts), reasoningText)
      ensures (old(Live()) ==> Live()) && (old(Short()) ==> Short())
      ensures streamedOutputText == NextStreamed(old(streamedOutputText), textParts)
      ensures OutputOf(written) == old(OutputOf(written)) + NextDelta(old(streamedOutputText), textParts)
      ensures old(Live()) ==> Survives(old(streamedOutputText), textParts, false)
    {
      hide Aggregate, OutputOf, ReasoningOf, LooksLikeContract, AppendUnique;
      AppendUniqueExtends(textParts, outputText);
      ExtensionSurvives(textParts, AppendUnique(textParts, outputText), streamedOutputText);
      ShowReasoning(reasoningText);
      var parts := AppendUnique(textParts, outputText);
      if parts != textParts {
        ShowParts(parts);
      }
    }

    // One notification.  The parts are then the texts of all notifications so far, and
    // the stream has shown what they come to.
    method Accept(ghost before: seq<Notification>, n: Notification)
      requires Valid() && Follows(before)
      modifies `agentMessageIndexes, `reasoningParts, `streamedReasoningText, `textParts, `streamedOutputText, `written
      ensures Valid() && Follows(before + [n])
      ensures OutputOf(written) == old(OutputOf(written)) + NextDelta(Shown(before), Texts(before + [n]))
      ensures old(Live()) ==> if Survives(Shown(before), Texts(before + [n]), false) then Live() else Short()
      ensures old(Short()) ==> Short()
    {
      hide Aggregate, OutputOf, ReasoningOf, AppendUnique, LooksLikeContract, Texts, Origins, Tracks, Reasonings;
      match n {
        case AgentDelta(itemId, delta) =>
          OneMoreDelta(before, itemId, delta, agentMessageIndexes);
          AgentDelta(itemId, delta);
        case Completed(outputText, reasoningText) =>
          OneMoreWhole(before, outputText, reasoningText, agentMessageIndexes);
          Completed(outputText, reasoningText);
      }
      ShownOneMore(before, n);
      ReasoningsOneMore(before, n);
    }

    // The state after some notifications.
    ghost predicate Follows(ns: seq<Notification>)
      reads `agentMessageIndexes, `textParts, `streamedOutputText, `reasoningParts
    {
      && textParts == Texts(ns) && Tracks(agentMessageIndexes, Origins(ns)) && streamedOutputText == Shown(ns)
      && reasoningParts == Reasonings(ns)
    }

    // The end of run(): a contract is unwrapped, and the done event carries the final
    // text.  From a live stream the deltas spell that text exactly; from one that has
    // fallen short they never spell a plain text.  The reasoning deltas spell the final
    // reasoning always.  `failed`: the turn failed and no tool call was collected.
    method Finish(failed: bool, parse: string -> Parsed) returns (r: Result)
      requires Valid() && ParsesContracts(parse)
      modifies this
      ensures r.DoneText? ==> r.outputText == FinalText(old(textParts), parse)
      ensures r.DoneText? ==> r.reasoning == ReasoningOf(written)
      ensures r.DoneText? ==> r.reasoning == FinalReasoning(old(textParts), old(reasoningParts), parse)
      ensures r.DoneText? && old(Live()) ==> OutputOf(written) == r.outputText
      ensures r.DoneText? && old(Short()) ==>
        (OutputOf(written) == r.outputText <==>
           parse(Aggregate(old(textParts))).Contract? && old(OutputOf(written)) == r.outputText)
      ensures r.NoDone? <==>
        || parse(Aggregate(old(textParts))).BadContract?
        || (FinalText(old(textParts), parse) == "" && failed)
    {
      hide Aggregate, OutputOf, ReasoningOf, LooksLikeContract, AppendUnique;
      var outputText := Aggregate(textParts);
      FirstCharacter(textParts);
      var parsed := parse(outputText);
      outputTextFinalized := true;
      if parsed.BadContract? { return NoDone; }
      if parsed.Contract? {
        outputText := parsed.outputText;
        StreamOutput(outputText);
        ShowReasoning(parsed.reasoning);
      }
      StreamOutput(outputText);
      if outputText == "" && failed { return NoDone; }
      r := DoneText(outputText, Aggregate(reasoningParts));
    }
  }

  // The reasoning of the done event: a contract may add to it.
  function FinalReasoning(parts: seq<string>, reasoning: seq<string>, parse: string -> Parsed): string {
    var parsed := parse(Aggregate(parts));
    Aggregate(if parsed.Contract? then AppendUnique(reasoning, parsed.reasoning) else reasoning)
  }

  // The text of the done event.
  function FinalText(parts: seq<string>, parse: string -> Parsed): string {
    var text := Aggregate(parts);
    if parse(text).Contract? then parse(text).outputText else text
  }

  lemma BraceFirst(text: string)
    ensures LooksLikeContract(text) <==> TrimStart(text) != "" && TrimStart(text)[0] == '{'
  {
  }

  // Streamed text that survives is not a possible contract.
  lemma Refresh(before: seq<string>, after: seq<string>, streamed: string)
    ensures
      var current := if LooksLikeContract(Aggregate(before)) then streamed == "" else streamed == Aggregate(before);
      current && streamed <= Aggregate(after) && streamed != "" ==> !LooksLikeContract(Aggregate(after))
  {
    TrimEdges(Join(before));
    TrimEdges(Join(after));
  }

  // What was streamed or held back survives an extension of the text it was taken from.
  lemma ExtensionSurvives(before: seq<string>, after: seq<string>, streamed: string)
    requires streamed == Aggregate(before) || (streamed == "" && LooksLikeContract(Aggregate(before)))
    ensures Aggregate(before) <= Aggregate(after) ==> Survives(streamed, after, false)
    ensures before == after ==> NextStreamed(streamed, after) == streamed && NextDelta(streamed, after) == ""
  {
    hide Aggregate;
  }

  lemma DeltaLength(previous: string, next: string)
    ensures |MonotonicDelta(previous, next)| == if previous <= next then |next| - |previous| else 0
  {
  }

  lemma NothingYet()
    ensures Aggregate([]) == "" && !LooksLikeContract("") && OutputOf([]) == "" && ReasoningOf([]) == ""
  {
  }

  lemma FirstCharacter(parts: seq<string>)
    ensures LooksLikeContract(Aggregate(parts)) <==> Aggregate(parts) != "" && Aggregate(parts)[0] == '{'
  {
    TrimEdges(Join(parts));
  }

  // ---- whole turns ----

  datatype Notification =
    | AgentDelta(itemId: string, delta: string)
    | Completed(outputText: string, reasoningText: string)

  // What a text part comes from: a message that arrives in deltas, or a whole part.
  datatype Origin = Item(id: string) | Whole(text: string)

  // All deltas of one message, put together.
  function DeltasOf(ns: seq<Notification>, id: string): string {
    if ns == [] then ""
    else
      var n := ns[|ns| - 1];
      DeltasOf(ns[..|ns| - 1], id) + if n.AgentDelta? && n.itemId == id then n.delta else ""
  }

  // The parts in order: each message at its first delta, and each whole part that is
  // neither blank nor, up to white space, the part before it.
  function Origins(ns: seq<Notification>): seq<Origin>
    decreases |ns|, 0
  {
    if ns == [] then []
    else
      var front := ns[..|ns| - 1];
      var before := Origins(front);
      match ns[|ns| - 1]
      case AgentDelta(id, _) => if Item(id) in before then before else before + [Item(id)]
      case Completed(text, _) =>
        if Trim(text) == "" || (before != [] && SameWords(TextOf(front, before[|before| - 1]), Trim(text))) then before
        else before + [Whole(Trim(text))]
  }

  function TextOf(ns: seq<Notification>, origin: Origin): string {
    if origin.Item? then DeltasOf(ns, origin.id) else origin.text
  }

  function Texts(ns: seq<Notification>): seq<string> {
    var origins := Origins(ns);
    seq(|origins|, i requires 0 <= i < |origins| => TextOf(ns, origins[i]))
  }

  // The indexes point at the parts of their messages.
  ghost predicate Tracks(indexes: map<string, nat>, origins: seq<Origin>) {
    && (forall id :: id in indexes ==> indexes[id] < |origins| && origins[indexes[id]] == Item(id))
    && (forall i :: 0 <= i < |origins| && origins[i].Item? ==>
          origins[i].id in indexes && indexes[origins[i].id] == i)
  }

  lemma {:induction false} NoDeltasYet(ns: seq<Notification>, id: string)
    ensures Item(id) !in Origins(ns) ==> DeltasOf(ns, id) == ""
    ensures ns != [] ==> forall o :: o in Origins(ns[..|ns| - 1]) ==> o in Origins(ns)
  {
    if ns != [] {
      NoDeltasYet(ns[..|ns| - 1], id);
    }
  }

  lemma TextOneMore(ns: seq<Notification>, n: Notification, o: Origin)
    ensures TextOf(ns + [n], o) == TextOf(ns, o) + if n.AgentDelta? && o == Item(n.itemId) then n.delta else ""
  {
    assert (ns + [n])[..|ns|] == ns;
  }

  lemma OriginsOneMore(ns: seq<Notification>, n: Notification)
    ensures
      var before, texts := Origins(ns), Texts(ns);
      Origins(ns + [n]) ==
        if n.AgentDelta? then (if Item(n.itemId) in before then before else before + [Item(n.itemId)])
        else
          var text := Trim(n.outputText);
          if text == "" || (texts != [] && SameWords(texts[|texts| - 1], text)) then before else before + [Whole(text)]
  {
    hide SameWords, TextOf, Trim;
    assert (ns + [n])[..|ns|] == ns;
  }

  lemma OneMoreDelta(ns: seq<Notification>, id: string, delta: string, indexes: map<string, nat>)
    requires Tracks(indexes, Origins(ns))
    ensures
      var all := ns + [AgentDelta(id, delta)];
      if id in indexes then
        && indexes[id] < |Texts(ns)|
        && Texts(all) == Texts(ns)[indexes[id] := Texts(ns)[indexes[id]] + delta] && Tracks(indexes, Origins(all))
      else Texts(all) == Texts(ns) + [delta] && Tracks(indexes[id := |Texts(ns)|], Origins(all))
  {
    hide TextOf, Origins, SameWords;
    var n := AgentDelta(id, delta);
    var all, before := ns + [n], Origins(ns);
    OriginsOneMore(ns, n);
    assert Item(id) in before <==> id in indexes;
    forall i | 0 <= i < |before|
      ensures Texts(all)[i] == if before[i] == Item(id) then Texts(ns)[i] + delta else Texts(ns)[i]
    {
      TextOneMore(ns, n, before[i]);
      assert Texts(ns)[i] + "" == Texts(ns)[i];
      assert Origins(all)[i] == before[i];
    }
    if id in indexes {
      assert Texts(all) == Texts(ns)[indexes[id] := Texts(ns)[indexes[id]] + delta];
    } else {
      NoDeltasYet(ns, id);
      TextOneMore(ns, n, Item(id));
      ItemText(ns, id);
      assert Origins(all)[|before|] == Item(id) && "" + delta == delta;
      assert Texts(all)[|before|] == delta;
      assert Texts(all) == Texts(ns) + [delta];
    }
  }

  lemma ItemText(ns: seq<Notification>, id: string)
    ensures TextOf(ns, Item(id)) == DeltasOf(ns, id)
  {
  }

  lemma OneMoreWhole(ns: seq<Notification>, text: string, reasoning: string, indexes: map<string, nat>)
    requires Tracks(indexes, Origins(ns))
    ensures
      var all := ns + [Completed(text, reasoning)];
      Texts(all) == AppendUnique(Texts(ns), text) && Tracks(indexes, Origins(all))
  {
    hide TextOf, Origins, Trim, SameWords;
    var n := Completed(text, reasoning);
    var all, before := ns + [n], Origins(ns);
    OriginsOneMore(ns, n);
    forall i | 0 <= i < |before| ensures TextOf(all, before[i]) == Texts(ns)[i] {
      TextOneMore(ns, n, before[i]);
    }
    WholeText(all, Trim(text));
  }

  lemma WholeText(ns: seq<Notification>, text: string)
    ensures TextOf(ns, Whole(text)) == text
  {
  }

  // The reasoning of the whole parts.
  function Reasonings(ns: seq<Notification>): seq<string> {
    if ns == [] then []
    else
      var n := ns[|ns| - 1];
      if n.Completed? then AppendUnique(Reasonings(ns[..|ns| - 1]), n.reasoningText) else Reasonings(ns[..|ns| - 1])
  }

  lemma ReasoningsOneMore(ns: seq<Notification>, n: Notification)
    ensures Reasonings(ns + [n]) ==
      if n.Completed? then AppendUnique(Reasonings(ns), n.reasoningText) else Reasonings(ns)
  {
    hide AppendUnique;
    assert (ns + [n])[..|ns|] == ns;
  }

  // What is streamed after some notifications, and the deltas written for it.
  function Shown(ns: seq<Notification>): string {
    if ns == [] then "" else NextStreamed(Shown(ns[..|ns| - 1]), Texts(ns))
  }

  function Emitted(ns: seq<Notification>): string {
    if ns == [] then "" else Emitted(ns[..|ns| - 1]) + NextDelta(Shown(ns[..|ns| - 1]), Texts(ns))
  }

  lemma ShownOneMore(ns: seq<Notification>, n: Notification)
    ensures Shown(ns + [n]) == NextStreamed(Shown(ns), Texts(ns + [n]))
    ensures Emitted(ns + [n]) == Emitted(ns) + NextDelta(Shown(ns), Texts(ns + [n]))
  {
    hide NextStreamed, NextDelta, Texts;
    assert (ns + [n])[..|ns|] == ns;
  }

  // At every notification the aggregate text is held back or extends what was streamed.
  ghost predicate AllSurvive(ns: seq<Notification>) {
    forall k :: 0 <= k < |ns| ==> SurvivesAt(ns, k)
  }

  ghost predicate SurvivesAt(ns: seq<Notification>, k: nat)
    requires k < |ns|
  {
    Survives(Shown(ns[..k]), Texts(ns[..k + 1]), false)
  }

  // Every delta opens a part or goes to the newest one at its time.
  ghost predicate ToNewestPart(ns: seq<Notification>) {
    forall k :: 0 <= k < |ns| && ns[k].AgentDelta? ==>
      var before := Origins(ns[..k]);
      Item(ns[k].itemId) !in before || before[|before| - 1] == Item(ns[k].itemId)
  }

  // One streamed turn, from its notifications to its done event.  The text is that of the
  // messages and whole parts.  The reasoning deltas always spell the reasoning of the done
  // event.  The output deltas spell its text if and only if all text survived, unless the
  // incomplete deltas happen to spell the text of a contract; in particular when every
  // delta goes to the newest part.
  method RunTurn(ns: seq<Notification>, failed: bool, parse: string -> Parsed)
    returns (written: seq<Written>, r: Result)
    requires ParsesContracts(parse)
    ensures r.DoneText? ==> r.outputText == FinalText(Texts(ns), parse)
    ensures r.DoneText? ==> ReasoningOf(written) == r.reasoning == FinalReasoning(Texts(ns), Reasonings(ns), parse)
    ensures r.DoneText? ==>
      var contract := parse(Aggregate(Texts(ns))).Contract?;
      && (OutputOf(written) == r.outputText <==> AllSurvive(ns) || (contract && Emitted(ns) == r.outputText))
    ensures r.DoneText? && ToNewestPart(ns) ==> OutputOf(written) == r.outputText
    ensures r.NoDone? <==> parse(Aggregate(Texts(ns))).BadContract? || (FinalText(Texts(ns), parse) == "" && failed)
  {
    hide Aggregate, OutputOf, ReasoningOf, Texts, Origins, Tracks, Shown, Emitted, Turn.Live, Turn.Short, Turn.Valid;
    hide AllSurvive, ToNewestPart, Survives, NextDelta, NextStreamed, FinalText, Reasonings, FinalReasoning;
    var turn := new Turn();
    ghost var survived := true;
    NothingYet();
    NothingFollowed();
    assert ns[..0] == [] && ns[..|ns|] == ns;
    for i := 0 to |ns|
      invariant turn.Valid() && fresh(turn) && turn.Follows(ns[..i])
      invariant OutputOf(turn.written) == Emitted(ns[..i])
      invariant survived <==> forall k :: 0 <= k < i ==> SurvivesAt(ns, k)
      invariant if survived then turn.Live() else turn.Short()
    {
      assert ns[..i + 1] == ns[..i] + [ns[i]];
      survived := survived && SurvivesAt(ns, i);
      turn.Accept(ns[..i], ns[i]);
      ShownOneMore(ns[..i], ns[i]);
    }
    SurvivedAll(ns);
    if ToNewestPart(ns) {
      NewestPartsSurvive(ns);
    }
    r := turn.Finish(failed, parse);
    written := turn.written;
  }

  lemma SurvivedAll(ns: seq<Notification>)
    ensures AllSurvive(ns) <==> forall k :: 0 <= k < |ns| ==> SurvivesAt(ns, k)
  {
  }

  lemma NothingFollowed()
    ensures Texts([]) == [] && Origins([]) == [] && Tracks(map[], []) && Shown([]) == "" && Emitted([]) == ""
    ensures Reasonings([]) == []
  {
  }

  // Everything survives in particular when every delta goes to the newest part.
  lemma NewestPartsSurvive(ns: seq<Notification>)
    requires ToNewestPart(ns)
    ensures AllSurvive(ns)
  {
    hide Survives, Texts, Origins, Shown, Aggregate, LooksLikeContract;
    forall k | 0 <= k < |ns| ensures SurvivesAt(ns, k) {
      UpToDateAfter(ns[..k]);
      assert ns[..k + 1] == ns[..k] + [ns[k]];
      NewestExtends(ns[..k], ns[k]);
      ExtensionSurvives(Texts(ns[..k]), Texts(ns[..k + 1]), Shown(ns[..k]));
    }
  }

  // The stream has shown the aggregate text, or holds it back.
  lemma UpToDateAfter(ns: seq<Notification>)
    ensures
      || Shown(ns) == Aggregate(Texts(ns))
      || (Shown(ns) == "" && LooksLikeContract(Aggregate(Texts(ns))))
  {
    hide Aggregate, Texts, LooksLikeContract;
    NothingYet();
    NothingFollowed();
  }

  // A delta to the newest part, like a whole part, extends the aggregate text.
  lemma NewestExtends(ns: seq<Notification>, n: Notification)
    requires n.AgentDelta? ==>
      Item(n.itemId) !in Origins(ns) || Origins(ns)[|Origins(ns)| - 1] == Item(n.itemId)
    ensures Aggregate(Texts(ns)) <= Aggregate(Texts(ns + [n]))
  {
    hide Aggregate, Origins, Texts, AppendUnique;
    var indexes := Tracking(ns);
    match n {
      case AgentDelta(id, delta) =>
        OneMoreDelta(ns, id, delta, indexes);
        PartPerOrigin(ns);
        GrownExtends(Texts(ns), if id in indexes then indexes[id] else |Texts(ns)|, delta);
      case Completed(text, reasoning) =>
        OneMoreWhole(ns, text, reasoning, indexes);
        AppendUniqueExtends(Texts(ns), text);
    }
  }

  lemma PartPerOrigin(ns: seq<Notification>)
    ensures |Texts(ns)| == |Origins(ns)|
  {
  }

  lemma {:induction false} Tracking(ns: seq<Notification>) returns (indexes: map<string, nat>)
    ensures Tracks(indexes, Origins(ns))
  {
    hide Origins, Texts, Tracks, AppendUnique;
    if ns == [] {
      NothingFollowed();
      indexes := map[];
    } else {
      var front, n := ns[..|ns| - 1], ns[|ns| - 1];
      assert front + [n] == ns;
      indexes := Tracking(front);
      match n {
        case AgentDelta(id, delta) =>
          OneMoreDelta(front, id, delta, indexes);
          if id !in indexes {
            indexes := indexes[id := |Texts(front)|];
          }
        case Completed(text, reasoning) =>
          OneMoreWhole(front, text, reasoning, indexes);
      }
    }
  }

  // Deltas of a single message spell its text: the trimmed concatenation.
  lemma OneMessage(ns: seq<Notification>, id: string)
    requires ns != [] && forall k :: 0 <= k < |ns| ==> ns[k].AgentDelta? && ns[k].itemId == id
    ensures Texts(ns) == [DeltasOf(ns, id)] && Aggregate(Texts(ns)) == Trim(DeltasOf(ns, id))
  {
    hide Trim;
    OneOrigin(ns, id);
    assert Texts(ns) == [TextOf(ns, Item(id))];
  }

  lemma {:induction false} OneOrigin(ns: seq<Notification>, id: string)
    requires ns != [] && forall k :: 0 <= k < |ns| ==> ns[k].AgentDelta? && ns[k].itemId == id
    ensures Origins(ns) == [Item(id)]
  {
    var front := ns[..|ns| - 1];
    if front != [] {
      OneOrigin(front, id);
    }
  }

  // A delta to a part that is no longer the newest one is lost: two messages, and a
  // second delta to the first one.
  method DeltaToAnOlderPartIsLost() returns (written: seq<Written>, r: Result)
    ensures r.DoneText? && OutputOf(written) != r.outputText
  {
    hide AllSurvive, Texts, Emitted, Aggregate, OutputOf;
    var ns := [AgentDelta("1", "a"), AgentDelta("2", "b"), AgentDelta("1", "x")];
    var parse: string -> Parsed := s => NoContract;
    OlderPartDoesNotSurvive(ns);
    written, r := RunTurn(ns, false, parse);
  }

  lemma OlderPartDoesNotSurvive(ns: seq<Notification>)
    requires ns == [AgentDelta("1", "a"), AgentDelta("2", "b"), AgentDelta("1", "x")]
    ensures !AllSurvive(ns)
  {
    hide Aggregate, Join, Trim, LooksLikeContract, Texts, Origins, Tracks;
    Parts();
    assert "1" != "2" by { assert "1"[0] != "2"[0]; }
    NothingFollowed();
    assert ns[..0] == [] && ns[..1] == [] + [ns[0]] && ns[..2] == ns[..1] + [ns[1]] && ns[..3] == ns[..2] + [ns[2]];
    NoneTracked();
    OneMoreDelta([], "1", "a", map[]);
    OneMoreDelta(ns[..1], "2", "b", map["1" := 0]);
    OneMoreDelta(ns[..2], "1", "x", map["1" := 0, "2" := 1]);
    assert Texts(ns[..1]) == ["a"] && Texts(ns[..2]) == ["a", "b"] && Texts(ns[..3]) == ["a" + "x", "b"];
    ShownOneMore([], ns[0]);
    ShownOneMore(ns[..1], ns[1]);
    assert Shown(ns[..2]) == "a\nb";
    assert !SurvivesAt(ns, 2);
  }

  lemma NoneTracked()
    ensures Tracks(map[], Origins([]))
  {
  }

  lemma Parts()
    ensures Aggregate(["a"]) == "a" && Aggregate(["a", "b"]) == "a\nb" && Aggregate(["a" + "x", "b"]) == "ax\nb"
    ensures !LooksLikeContract("a") && !LooksLikeContract("a\nb") && !("a\nb" <= "ax\nb")
  {
    hide Trim, TrimEnd;
    JoinTwo("a", "b");
    JoinTwo("a" + "x", "b");
    assert "a" + "\n" + "b" == "a\nb" && ("a" + "x") + "\n" + "b" == "ax\nb";
    SolidText("a");
    SolidText("a\nb");
    SolidText("ax\nb");
    assert "ax\nb"[1] != "a\nb"[1];
  }

  lemma JoinTwo(a: string, b: string)
    ensures Join([a, b]) == a + "\n" + b
  {
    assert [a, b][..1] == [a];
  }

  // ---- the /responses route ----

  datatype RouteEvent =
    | Piece(delta: Written)
    | ToolCall
    | Done(outputText: Option<string>, reasoningText: Option<string>)

  // What the route forwarded to its client and the texts of its final result.
  datatype Merged = Merged(forwarded: seq<Written>, outputText: string, reasoningText: string)

  method MergeStream(events: seq<RouteEvent>) returns (merged: Merged)
    ensures merged == MergeAll(events)
  {
    var forwarded, outputText, reasoningText := [], "", "";
    for i := 0 to |events|
      invariant Merged(forwarded, outputText, reasoningText) == MergeAll(events[..i])
    {
      assert events[..i + 1][..i] == events[..i];
      match events[i]
      case Piece(OutputDelta(text)) =>
        outputText := outputText + text;
        forwarded := forwarded + [OutputDelta(text)];
      case Piece(ReasoningDelta(text)) =>
        reasoningText := reasoningText + text;
        forwarded := forwarded + [ReasoningDelta(text)];
      case ToolCall =>
      case Done(output, reasoning) =>
        if reasoning.Some? {
          var delta := MonotonicDelta(reasoningText, reasoning.value);
          if delta != "" { forwarded := forwarded + [ReasoningDelta(delta)]; }
          reasoningText := reasoning.value;
        }
        if output.Some? {
          var delta := MonotonicDelta(outputText, output.value);
          if delta != "" { forwarded := forwarded + [OutputDelta(delta)]; }
          outputText := output.value;
        }
    }
    assert events[..|events|] == events;
    merged := Merged(forwarded, outputText, reasoningText);
  }

  function MergeAll(events: seq<RouteEvent>): Merged {
    if events == [] then Merged([], "", "")
    else MergeOne(MergeAll(events[..|events| - 1]), events[|events| - 1])
  }

  function MergeOne(m: Merged, event: RouteEvent): Merged {
    match event
    case Piece(OutputDelta(text)) => m.(forwarded := m.forwarded + [event.delta], outputText := m.outputText + text)
    case Piece(ReasoningDelta(text)) =>
      m.(forwarded := m.forwarded + [event.delta], reasoningText := m.reasoningText + text)
    case ToolCall => m
    case Done(output, reasoning) =>
      var r := NonEmpty(ReasoningDelta(LastDelta(m.reasoningText, reasoning)));
      var o := NonEmpty(OutputDelta(LastDelta(m.outputText, output)));
      Merged(m.forwarded + r + o,
        output.GetOr(m.outputText), reasoning.GetOr(m.reasoningText))
  }

  function LastDelta(streamed: string, final: Option<string>): string {
    if final.Some? then MonotonicDelta(streamed, final.value) else ""
  }

  function NonEmpty(delta: Written): seq<Written> {
    if delta.text == "" then [] else [delta]
  }

  lemma {:induction false} TextsOfParts(a: seq<Written>, b: seq<Written>)
    ensures OutputOf(a + b) == OutputOf(a) + OutputOf(b)
    ensures ReasoningOf(a + b) == ReasoningOf(a) + ReasoningOf(b)
    decreases |b|
  {
    hide OutputOf, ReasoningOf;
    if b == [] {
      assert a + b == a;
      NoText();
    } else {
      var n := |b| - 1;
      TextsOfParts(a, b[..n]);
      OneMoreText(a + b[..n], b[n]);
      OneMoreText(b[..n], b[n]);
      assert a + b[..n] + [b[n]] == a + b;
      assert b[..n] + [b[n]] == b;
    }
  }

  lemma NoText()
    ensures OutputOf([]) == "" && ReasoningOf([]) == ""
  {
  }

  lemma OneMoreText(written: seq<Written>, delta: Written)
    ensures OutputOf(written + [delta]) == OutputOf(written) + if delta.OutputDelta? then delta.text else ""
    ensures ReasoningOf(written + [delta]) == ReasoningOf(written) + if delta.ReasoningDelta? then delta.text else ""
  {
    assert (written + [delta])[..|written|] == written;
  }

  // Before the done event the forwarded deltas spell the texts of the result.
  lemma {:induction false} PiecesAreForwarded(events: seq<RouteEvent>)
    requires forall i :: 0 <= i < |events| ==> !events[i].Done?
    ensures OutputOf(MergeAll(events).forwarded) == MergeAll(events).outputText
    ensures ReasoningOf(MergeAll(events).forwarded) == MergeAll(events).reasoningText
  {
    if events != [] {
      var before := events[..|events| - 1];
      PiecesAreForwarded(before);
      if events[|events| - 1].Piece? {
        TextsOfParts(MergeAll(before).forwarded, [events[|events| - 1].delta]);
      }
    }
  }

  // The deltas a client of the route gets spell the final texts exactly when the done
  // text, if any, extends what was streamed before it.
  lemma RouteIsFaithful(events: seq<RouteEvent>, done: RouteEvent)
    requires forall i :: 0 <= i < |events| ==> !events[i].Done?
    requires done.Done?
    ensures
      var streamed, merged := MergeAll(events), MergeAll(events + [done]);
      && merged.outputText == done.outputText.GetOr(streamed.outputText)
      && merged.reasoningText == done.reasoningText.GetOr(streamed.reasoningText)
      && (OutputOf(merged.forwarded) == merged.outputText <==> streamed.outputText <= merged.outputText)
      && (ReasoningOf(merged.forwarded) == merged.reasoningText <==> streamed.reasoningText <= merged.reasoningText)
  {
    hide OutputOf, ReasoningOf, MergeAll;
    PiecesAreForwarded(events);
    MergeSnoc(events, done);
    DoneCompletes(MergeAll(events), done);
  }

  lemma DoneCompletes(m: Merged, done: RouteEvent)
    requires done.Done? && OutputOf(m.forwarded) == m.outputText && ReasoningOf(m.forwarded) == m.reasoningText
    ensures
      var merged := MergeOne(m, done);
      && merged.outputText == done.outputText.GetOr(m.outputText)
      && merged.reasoningText == done.reasoningText.GetOr(m.reasoningText)
      && (OutputOf(merged.forwarded) == merged.outputText <==> m.outputText <= merged.outputText)
      && (ReasoningOf(merged.forwarded) == merged.reasoningText <==> m.reasoningText <= merged.reasoningText)
  {
    hide OutputOf, ReasoningOf, MonotonicDelta, NonEmpty;
    var reasoning := ReasoningDelta(LastDelta(m.reasoningText, done.reasoningText));
    var output := OutputDelta(LastDelta(m.outputText, done.outputText));
    var r, o := NonEmpty(reasoning), NonEmpty(output);
    NonEmptyText(reasoning);
    NonEmptyText(output);
    TextsOfParts(m.forwarded, r);
    TextsOfParts(m.forwarded + r, o);
    DeltaCompletes(m.outputText, done.outputText.GetOr(""));
    DeltaCompletes(m.reasoningText, done.reasoningText.GetOr(""));
    assert OutputOf(m.forwarded + r + o) == m.outputText + output.text;
    assert ReasoningOf(m.forwarded + r + o) == m.reasoningText + reasoning.text;
  }

  lemma MergeSnoc(events: seq<RouteEvent>, event: RouteEvent)
    ensures MergeAll(events + [event]) == MergeOne(MergeAll(events), event)
  {
    assert (events + [event])[..|events|] == events;
  }

  lemma NonEmptyText(delta: Written)
    ensures OutputOf(NonEmpty(delta)) == (if delta.OutputDelta? then delta.text else "")
    ensures ReasoningOf(NonEmpty(delta)) == (if delta.ReasoningDelta? then delta.text else "")
  {
    assert delta.text != "" ==> NonEmpty(delta)[..0] == [];
  }

  // ---- from the bridge to the client of the route ----

  // The bridge's deltas as the CLI provider reads them: an empty text field of the done
  // line reads as absent.
  function Relayed(written: seq<Written>): seq<RouteEvent> {
    if written == [] then [] else Relayed(written[..|written| - 1]) + [Piece(written[|written| - 1])]
  }

  function DoneEvent(outputText: string, reasoning: string): RouteEvent {
    Done(if outputText == "" then None else Some(outputText), if reasoning == "" then None else Some(reasoning))
  }

  lemma {:induction false} RelayedTexts(written: seq<Written>)
    ensures forall i :: 0 <= i < |Relayed(written)| ==> !Relayed(written)[i].Done?
    ensures MergeAll(Relayed(written)).outputText == OutputOf(written)
    ensures MergeAll(Relayed(written)).reasoningText == ReasoningOf(written)
  {
    if written != [] {
      var before := written[..|written| - 1];
      RelayedTexts(before);
      assert Relayed(written)[..|Relayed(written)| - 1] == Relayed(before);
    }
  }

  // Whenever the bridge's deltas spell the texts of its done line, so do the deltas the
  // route forwards, and the route's result carries the same texts.
  lemma BridgeToClient(written: seq<Written>, outputText: string, reasoning: string)
    requires OutputOf(written) == outputText && ReasoningOf(written) == reasoning
    ensures
      var merged := MergeAll(Relayed(written) + [DoneEvent(outputText, reasoning)]);
      && OutputOf(merged.forwarded) == merged.outputText == outputText
      && ReasoningOf(merged.forwarded) == merged.reasoningText == reasoning
  {
    RelayedTexts(written);
    RouteIsFaithful(Relayed(written), DoneEvent(outputText, reasoning));
  }
}
