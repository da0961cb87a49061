// The lines of a JSON-RPC stream: how they are read, and which messages and answers a
// whole text comes to.
module JsonLines {
  import opened Text

  // What JSON.parse and the shape tests make of a non-empty trimmed line.  NullValue is
  // a bare null, on which the property access throws.
  datatype Line<M> = Blank | Invalid | NullValue | Response(id: int, isError: bool) | Notice(message: M)

  datatype Settlement = Answered(isError: bool) | TimedOut | SendFailed | Closed

  datatype Settled = Settled(id: int, how: Settlement)

  function DropCarriageReturn(raw: string): string {
    if raw != "" && raw[|raw| - 1] == '\r' then raw[..|raw| - 1] else raw
  }

  // Trimming takes the carriage return away anyway.
  lemma TrimmedTwice(raw: string)
    ensures Trim(DropCarriageReturn(raw)) == Trim(raw)
  {
    hide TrimStart, TrimEnd;
    if raw != "" && raw[|raw| - 1] == '\r' {
      var line := raw[..|raw| - 1];
      assert raw == line + "\r";
      TrimWithReturn(line);
    }
  }

  lemma TrimWithReturn(line: string)
    ensures Trim(line + "\r") == Trim(line)
  {
    hide TrimStart, TrimEnd;
    TrimsAgree(line);
    TrimEndOfOne('\r');
    if TrimStart(line) == "" {
      TrimStartSkips(line, "\r");
      ReturnOnly();
    } else {
      TrimStartAppend(line, "\r");
      TrimEndAppend(TrimStart(line), "\r");
    }
  }

  lemma ReturnOnly()
    ensures TrimStart("\r") == "" && TrimEnd("") == ""
  {
    assert "\r"[1..] == "";
  }

  function ReadLine<M>(classify: string -> Line<M>, raw: string): Line<M> {
    var line := Trim(raw);
    if line == "" then Blank else classify(line)
  }

  // ---- the whole-text meaning of a stream ----

  // The messages among some lines, up to a null, which ends the process.
  function Messages<M>(classify: string -> Line<M>, lines: seq<string>): seq<M>
    decreases |lines|
  {
    if lines == [] then []
    else match ReadLine(classify, lines[0])
      case NullValue => []
      case Notice(m) => [m] + Messages(classify, lines[1..])
      case _ => Messages(classify, lines[1..])
  }

  // The settlements that the responses among some lines cause.
  function Answers<M>(classify: string -> Line<M>, lines: seq<string>, pending: set<int>): seq<Settled>
    decreases |lines|
  {
    if lines == [] then []
    else match ReadLine(classify, lines[0])
      case NullValue => []
      case Response(id, isError) =>
        if id in pending then [Settled(id, Answered(isError))] + Answers(classify, lines[1..], pending - {id})
        else Answers(classify, lines[1..], pending)
      case _ => Answers(classify, lines[1..], pending)
  }

  ghost predicate NoNull<M>(classify: string -> Line<M>, lines: seq<string>) {
    forall i :: 0 <= i < |lines| ==> !ReadLine(classify, lines[i]).NullValue?
  }

  lemma {:induction false} MessagesAppend<M>(classify: string -> Line<M>, a: seq<string>, b: seq<string>)
    requires NoNull(classify, a)
    ensures Messages(classify, a + b) == Messages(classify, a) + Messages(classify, b)
    decreases |a|
  {
    hide ReadLine;
    if a == [] {
      assert a + b == b;
    } else {
      assert (a + b)[1..] == a[1..] + b;
      assert (a + b)[0] == a[0] && !ReadLine(classify, a[0]).NullValue?;
      MessagesAppend(classify, a[1..], b);
    }
  }

  lemma NoNullAppend<M>(classify: string -> Line<M>, a: seq<string>, b: seq<string>)
    ensures NoNull(classify, a + b) <==> NoNull(classify, a) && NoNull(classify, b)
  {
    hide ReadLine;
    forall i | 0 <= i < |b| && NoNull(classify, a + b) ensures !ReadLine(classify, b[i]).NullValue? {
      assert (a + b)[|a| + i] == b[i];
    }
    forall i | 0 <= i < |a| && NoNull(classify, a + b) ensures !ReadLine(classify, a[i]).NullValue? {
      assert (a + b)[i] == a[i];
    }
  }

  // Reading one line off a buffer.
  lemma FirstLine<M>(classify: string -> Line<M>, buffer: string, pending: set<int>)
    requires NewlineAt(buffer) < |buffer|
    ensures
      var raw, after := buffer[..NewlineAt(buffer)], buffer[NewlineAt(buffer) + 1..];
      var line := ReadLine(classify, raw);
      && Rest(buffer) == Rest(after)
      && (NoNull(classify, Lines(buffer)) <==> !line.NullValue? && NoNull(classify, Lines(after)))
      && Messages(classify, Lines(buffer)) == (
           if line.NullValue? then []
           else if line.Notice? then [line.message] + Messages(classify, Lines(after))
           else Messages(classify, Lines(after)))
      && Answers(classify, Lines(buffer), pending) == (
           if line.NullValue? then []
           else if line.Response? && line.id in pending then
             [Settled(line.id, Answered(line.isError))] + Answers(classify, Lines(after), pending - {line.id})
           else Answers(classify, Lines(after), pending))
  {
    hide ReadLine;
    var raw, after := buffer[..NewlineAt(buffer)], buffer[NewlineAt(buffer) + 1..];
    assert Lines(buffer) == [raw] + Lines(after) && Lines(buffer)[1..] == Lines(after);
    NoNullAppend(classify, [raw], Lines(after));
    assert NoNull(classify, [raw]) <==> !ReadLine(classify, [raw][0]).NullValue?;
  }

  lemma NoLines<M>(classify: string -> Line<M>, buffer: string, pending: set<int>)
    requires NewlineAt(buffer) == |buffer|
    ensures Messages(classify, Lines(buffer)) == [] && Answers(classify, Lines(buffer), pending) == []
    ensures NoNull(classify, Lines(buffer)) && Rest(buffer) == buffer
  {
  }

  // The non-blank line i is of some kind.
  ghost predicate Reads<M>(classify: string -> Line<M>, lines: seq<string>, i: int, line: Line<M>) {
    0 <= i < |lines| && Trim(lines[i]) != "" && classify(Trim(lines[i])) == line
  }

  // A settlement by an answer needs a response line carrying the request's own id.
  lemma {:induction false} AnswersMatch<M>(classify: string -> Line<M>, lines: seq<string>, pending: set<int>)
    ensures forall s :: s in Answers(classify, lines, pending) ==>
      && s.id in pending && s.how.Answered?
      && exists i :: Reads(classify, lines, i, Response(s.id, s.how.isError))
    decreases |lines|
  {
    if lines != [] {
      var line := ReadLine(classify, lines[0]);
      if line.NullValue? { return; }
      var answers := line.Response? && line.id in pending;
      var left := if answers then pending - {line.id} else pending;
      AnswersMatch(classify, lines[1..], left);
      var rest, all := Answers(classify, lines[1..], left), Answers(classify, lines, pending);
      forall s | s in rest
        ensures exists i :: Reads(classify, lines, i, Response(s.id, s.how.isError))
      {
        var i :| Reads(classify, lines[1..], i, Response(s.id, s.how.isError));
        assert lines[i + 1] == lines[1..][i];
        assert Reads(classify, lines, i + 1, Response(s.id, s.how.isError));
      }
      assert answers ==> Reads(classify, lines, 0, Response(line.id, line.isError));
      assert all == (if answers then [Settled(line.id, Answered(line.isError))] else []) + rest;
    }
  }

  // ---- what the lines of a text come to ----

  // No null up to and including line i; a null ends the process.
  ghost predicate Alive<M>(classify: string -> Line<M>, lines: seq<string>, i: int) {
    forall j :: 0 <= j <= i ==> !Reads(classify, lines, j, NullValue)
  }

  lemma ReadsLater<M>(classify: string -> Line<M>, lines: seq<string>, i: int, line: Line<M>)
    requires lines != []
    ensures i > 0 ==> (Reads(classify, lines, i, line) <==> Reads(classify, lines[1..], i - 1, line))
  {
    if 0 < i < |lines| {
      assert lines[1..][i - 1] == lines[i];
    }
  }

  lemma AliveLater<M>(classify: string -> Line<M>, lines: seq<string>, i: int)
    requires lines != [] && i >= 0
    ensures Alive(classify, lines, i) <==>
      !Reads(classify, lines, 0, NullValue) && (i > 0 ==> Alive(classify, lines[1..], i - 1))
  {
    hide Reads;
    forall j | 0 < j ensures Reads(classify, lines, j, NullValue) <==> Reads(classify, lines[1..], j - 1, NullValue) {
      ReadsLater(classify, lines, j, NullValue);
    }
    if Alive(classify, lines, i) {
      forall j | 0 <= j <= i - 1 ensures !Reads(classify, lines[1..], j, NullValue) {
        ReadsLater(classify, lines, j + 1, NullValue);
      }
    }
  }

  lemma {:induction false} NothingAfterNull<M>(classify: string -> Line<M>, a: seq<string>, b: seq<string>)
    requires !NoNull(classify, a)
    ensures Messages(classify, a + b) == Messages(classify, a) && !NoNull(classify, a + b)
    decreases |a|
  {
    hide ReadLine;
    var i :| 0 <= i < |a| && ReadLine(classify, a[i]).NullValue?;
    assert (a + b)[i] == a[i];
    if !ReadLine(classify, a[0]).NullValue? {
      assert a[1..][i - 1] == a[i];
      assert (a + b)[1..] == a[1..] + b;
      NothingAfterNull(classify, a[1..], b);
    }
  }

  lemma AliveSoFar<M>(classify: string -> Line<M>, lines: seq<string>, i: nat)
    requires i < |lines|
    ensures Alive(classify, lines, i) <==> NoNull(classify, lines[..i]) && !Reads(classify, lines, i, NullValue)
  {
    hide Trim;
    assert forall j :: 0 <= j < i ==> lines[..i][j] == lines[j];
    forall j | 0 <= j < i
      ensures ReadLine(classify, lines[..i][j]).NullValue? <==> Reads(classify, lines, j, NullValue)
    {
    }
  }

  // Line by line: a notice that no null precedes adds its message, and no other line does.
  lemma MessagesByLine<M>(classify: string -> Line<M>, lines: seq<string>, i: nat)
    requires i < |lines|
    ensures Messages(classify, []) == []
    ensures
      var line := Trim(lines[i]);
      Messages(classify, lines[..i + 1]) == Messages(classify, lines[..i]) +
        if line != "" && classify(line).Notice? && Alive(classify, lines, i) then [classify(line).message] else []
  {
    hide Trim;
    assert lines[..i + 1] == lines[..i] + [lines[i]];
    assert [lines[i]][1..] == [];
    AliveSoFar(classify, lines, i);
    if NoNull(classify, lines[..i]) {
      MessagesAppend(classify, lines[..i], [lines[i]]);
    } else {
      NothingAfterNull(classify, lines[..i], [lines[i]]);
    }
  }

  // ---- answers ----

  // Line i is the first response to a request, and no null comes before it.
  ghost predicate FirstResponse<M>(classify: string -> Line<M>, lines: seq<string>, i: int, id: int, isError: bool) {
    && Reads(classify, lines, i, Response(id, isError)) && Alive(classify, lines, i)
    && forall j :: 0 <= j < i ==> !Responds(classify, lines, j, id)
  }

  ghost predicate Responds<M>(classify: string -> Line<M>, lines: seq<string>, i: int, id: int) {
    Reads(classify, lines, i, Response(id, true)) || Reads(classify, lines, i, Response(id, false))
  }

  // The first response to a pending request answers it, with its verdict.
  lemma {:induction false} ResponsesAnswer<M>(
    classify: string -> Line<M>, lines: seq<string>, pending: set<int>, i: int, id: int, isError: bool)
    requires FirstResponse(classify, lines, i, id, isError) && id in pending
    ensures Settled(id, Answered(isError)) in Answers(classify, lines, pending)
    decreases |lines|
  {
    hide Trim, Alive;
    AliveLater(classify, lines, i);
    var line := ReadLine(classify, lines[0]);
    if i > 0 {
      assert !Responds(classify, lines, 0, id);
      ReadsLater(classify, lines, i, Response(id, isError));
      forall j | 0 <= j < i - 1 ensures !Responds(classify, lines[1..], j, id) {
        ReadsLater(classify, lines, j + 1, Response(id, true));
        ReadsLater(classify, lines, j + 1, Response(id, false));
        assert !Responds(classify, lines, j + 1, id);
      }
      var left := if line.Response? && line.id in pending then pending - {line.id} else pending;
      assert line.Response? ==> line.id != id;
      ResponsesAnswer(classify, lines[1..], left, i - 1, id, isError);
    }
  }

  // ---- carriage returns ----

  // Lines that are ended in some way, and an unfinished one.
  function Joined(lines: seq<string>, end: string, rest: string): string {
    if lines == [] then rest else lines[0] + end + Joined(lines[1..], end, rest)
  }

  function EachWithReturn(lines: seq<string>): seq<string> {
    seq(|lines|, i requires 0 <= i < |lines| => lines[i] + "\r")
  }

  // The text with each newline turned into a carriage return and a newline.
  function WithReturns(text: string): string {
    Joined(Lines(text), "\r\n", Rest(text))
  }

  // A text is its lines, ended by newlines, and its rest.
  lemma {:induction false} TextIsItsLines(text: string)
    ensures text == Joined(Lines(text), "\n", Rest(text))
    ensures NewlineAt(Rest(text)) == |Rest(text)|
    ensures forall i :: 0 <= i < |Lines(text)| ==> '\n' !in Lines(text)[i]
    decreases |text|
  {
    hide NewlineAt;
    var i := NewlineAt(text);
    if i < |text| {
      TextIsItsLines(text[i + 1..]);
      assert text == text[..i] + "\n" + text[i + 1..];
      assert Lines(text)[1..] == Lines(text[i + 1..]);
    }
  }

  lemma {:induction false} LinesWithReturns(lines: seq<string>, rest: string)
    requires NewlineAt(rest) == |rest| && forall i :: 0 <= i < |lines| ==> '\n' !in lines[i]
    ensures Lines(Joined(lines, "\r\n", rest)) == EachWithReturn(lines)
    decreases |lines|
  {
    hide NewlineAt;
    if lines != [] {
      var later := Joined(lines[1..], "\r\n", rest);
      var first := lines[0] + "\r";
      assert lines[0] + "\r\n" + later == first + "\n" + later;
      assert NewlineAt(first) == |first|;
      FirstBreak(first, later);
      LinesWithReturns(lines[1..], rest);
      assert EachWithReturn(lines) == [first] + EachWithReturn(lines[1..]);
    }
  }

  // Lines that are ended by a carriage return and a newline are read like any others.
  lemma ReturnsDoNotMatter<M>(classify: string -> Line<M>, text: string, pending: set<int>)
    ensures Messages(classify, Lines(WithReturns(text))) == Messages(classify, Lines(text))
    ensures Answers(classify, Lines(WithReturns(text)), pending) == Answers(classify, Lines(text), pending)
    ensures NoNull(classify, Lines(WithReturns(text))) <==> NoNull(classify, Lines(text))
  {
    hide Trim;
    TextIsItsLines(text);
    LinesWithReturns(Lines(text), Rest(text));
    SameWithReturns(classify, Lines(text), pending);
  }

  lemma {:induction false} SameWithReturns<M>(classify: string -> Line<M>, lines: seq<string>, pending: set<int>)
    ensures Messages(classify, EachWithReturn(lines)) == Messages(classify, lines)
    ensures Answers(classify, EachWithReturn(lines), pending) == Answers(classify, lines, pending)
    ensures NoNull(classify, EachWithReturn(lines)) <==> NoNull(classify, lines)
    decreases |lines|
  {
    hide Trim;
    forall i | 0 <= i < |lines| ensures ReadLine(classify, EachWithReturn(lines)[i]) == ReadLine(classify, lines[i]) {
      TrimWithReturn(lines[i]);
    }
    if lines != [] {
      assert EachWithReturn(lines)[1..] == EachWithReturn(lines[1..]);
      var line := ReadLine(classify, lines[0]);
      SameWithReturns(
        classify, lines[1..], if line.Response? && line.id in pending then pending - {line.id} else pending);
      SameWithReturns(classify, lines[1..], pending);
    }
  }
}
