// The JSON-RPC 2.0 line client of the Codex bridge.  Incoming chunks are decoded one by
// one and framed by newlines; responses settle the request with their id, every other
// message goes to the longest waiting reader or into the queue.  Promises, timers and
// child events are the methods below, called in any order.
module JsonRpc {
  import opened Text
  import opened JsonLines
  import Utf8

  datatype Handed<M> = Handed(reader: nat, message: M)

  datatype ReadResult<M> = Got(message: M) | Nothing | Waiting(reader: nat)

  // ---- the hand-off ----

  // Readers and messages meet here; at most one of the two sides is waiting.
  datatype Desk<M> = Desk(queue: seq<M>, waiters: seq<nat>, handed: seq<Handed<M>>) {
    ghost predicate Valid() {
      && (queue == [] || waiters == [])
      && forall i, j :: 0 <= i < j < |waiters| ==> waiters[i] != waiters[j]
    }

    // All messages that have passed, in order.
    function Passed(): seq<M> {
      Given() + queue
    }

    function Given(): seq<M> {
      seq(|handed|, i requires 0 <= i < |handed| => handed[i].message)
    }
  }

  function Post<M>(desk: Desk<M>, message: M): Desk<M> {
    if desk.waiters != [] then
      desk.(waiters := desk.waiters[1..], handed := desk.handed + [Handed(desk.waiters[0], message)])
    else desk.(queue := desk.queue + [message])
  }

  function PostAll<M>(desk: Desk<M>, messages: seq<M>): Desk<M>
    decreases |messages|
  {
    if messages == [] then desk else PostAll(Post(desk, messages[0]), messages[1..])
  }

  // Posting appends to what has passed.
  lemma {:induction false} PostAllConserves<M>(desk: Desk<M>, messages: seq<M>)
    requires desk.Valid()
    ensures PostAll(desk, messages).Valid()
    ensures PostAll(desk, messages).Passed() == desk.Passed() + messages
    decreases |messages|
  {
    if messages != [] {
      var next := Post(desk, messages[0]);
      assert next.Passed() == desk.Passed() + [messages[0]];
      PostAllConserves(next, messages[1..]);
      assert [messages[0]] + messages[1..] == messages;
    }
  }

  function Paired<M>(readers: seq<nat>, messages: seq<M>): seq<Handed<M>>
    requires |readers| == |messages|
  {
    seq(|readers|, i requires 0 <= i < |readers| => Handed(readers[i], messages[i]))
  }

  lemma {:induction false} PostAllQueues<M>(desk: Desk<M>, messages: seq<M>)
    requires desk.waiters == []
    ensures PostAll(desk, messages) == desk.(queue := desk.queue + messages)
    decreases |messages|
  {
    if messages != [] {
      PostAllQueues(Post(desk, messages[0]), messages[1..]);
      assert desk.queue + [messages[0]] + messages[1..] == desk.queue + messages;
    }
  }

  // Waiting readers are served first come, first served; what they leave is queued.
  lemma {:induction false} PostAllServes<M>(desk: Desk<M>, messages: seq<M>, k: nat)
    requires k <= |messages| && k <= |desk.waiters| && (k == |messages| || k == |desk.waiters|)
    ensures PostAll(desk, messages) ==
      Desk(desk.queue + messages[k..], desk.waiters[k..], desk.handed + Paired(desk.waiters[..k], messages[..k]))
    decreases |messages|
  {
    if k == 0 {
      assert messages[0..] == messages;
      if messages != [] {
        PostAllQueues(desk, messages);
      }
    } else {
      PostAllServes(Post(desk, messages[0]), messages[1..], k - 1);
      assert [Handed(desk.waiters[0], messages[0])] + Paired(desk.waiters[1..][..k - 1], messages[1..][..k - 1])
          == Paired(desk.waiters[..k], messages[..k]);
    }
  }

  function IndexOf(list: seq<nat>, x: nat): (k: nat)
    requires x in list
    ensures k < |list| && list[k] == x && x !in list[..k]
  {
    if list[0] == x then 0 else
      var k := IndexOf(list[1..], x);
      assert list[..k + 1] == [list[0]] + list[1..][..k];
      k + 1
  }

  function Splice(list: seq<nat>, k: nat): seq<nat>
    requires k < |list|
  {
    list[..k] + list[k + 1..]
  }

  lemma {:induction false} SpliceIsWithout(list: seq<nat>, x: nat)
    requires x in list
    ensures Splice(list, IndexOf(list, x)) == Without(list, x)
  {
    if list[0] != x {
      SpliceIsWithout(list[1..], x);
      var k := IndexOf(list[1..], x);
      assert Splice(list, k + 1) == [list[0]] + Splice(list[1..], k);
    }
  }

  lemma ClosesNothing(pending: set<int>)
    ensures ClosedUpTo(pending, 0) == []
  {
  }

  lemma ClosesOne(pending: set<int>, id: nat)
    requires id >= 1
    ensures ClosedUpTo(pending, id) == ClosedUpTo(pending, id - 1) + if id in pending then [Settled(id, Closed)] else []
  {
  }

  lemma {:induction false} ClosesEach(pending: set<int>, n: nat)
    ensures forall s :: s in ClosedUpTo(pending, n) <==> 1 <= s.id <= n && s.id in pending && s.how == Closed
  {
    if n > 0 {
      ClosesEach(pending, n - 1);
    }
  }

  ghost predicate Removed(before: seq<nat>, k: int, x: nat, after: seq<nat>)
    requires 0 <= k < |before|
  {
    before[k] == x && after == Splice(before, k)
  }

  lemma SpliceRemoves(list: seq<nat>, k: nat)
    requires k < |list| && forall i, j :: 0 <= i < j < |list| ==> list[i] != list[j]
    ensures forall x :: x in Splice(list, k) <==> x in list && x != list[k]
    ensures forall i, j :: 0 <= i < j < |list| - 1 ==> Splice(list, k)[i] != Splice(list, k)[j]
  {
    var r := Splice(list, k);
    assert forall i :: 0 <= i < |r| ==> r[i] == if i < k then list[i] else list[i + 1];
    forall x | x in list && x != list[k] ensures x in r {
      var i :| 0 <= i < |list| && list[i] == x;
      assert r[if i < k then i else i - 1] == x;
    }
  }

  // ---- what each step is to do ----

  datatype Step =
    | Data(chunk: seq<Byte>) | Read | ReadTimer(reader: nat) | Ask(sendFails: bool) | AskTimer(id: int)
    | ChildError | ChildClose

  function DecodedStep(step: Step): string {
    if step.Data? then Utf8.Decode(step.chunk) else ""
  }

  // The text received, the desk, how many requests and readers there were, the requests
  // that wait for an answer, how the others were settled, and whether the child closed.
  datatype State<M> = State(
    text: string, desk: Desk<M>, issued: nat, readers: nat, pending: set<int>, settled: seq<Settled>, ended: bool)

  // Waiting readers get the first messages, and the others are queued.
  function Serving<M>(desk: Desk<M>, messages: seq<M>): Desk<M> {
    var k := if |messages| < |desk.waiters| then |messages| else |desk.waiters|;
    Desk(desk.queue + messages[k..], desk.waiters[k..], desk.handed + Paired(desk.waiters[..k], messages[..k]))
  }

  function Without(list: seq<nat>, x: nat): seq<nat> {
    if list == [] then [] else if list[0] == x then list[1..] else [list[0]] + Without(list[1..], x)
  }

  // The pending requests among the first ones are closed in the order of their ids.
  function ClosedUpTo(pending: set<int>, n: nat): seq<Settled> {
    if n == 0 then [] else ClosedUpTo(pending, n - 1) + if n in pending then [Settled(n, Closed)] else []
  }

  function Closing<M>(s: State<M>): State<M> {
    s.(desk := s.desk.(waiters := []), pending := {}, settled := s.settled + ClosedUpTo(s.pending, s.issued))
  }

  function Receiving<M>(classify: string -> Line<M>, s: State<M>, data: string): State<M> {
    var lines := Lines(Rest(s.text) + data);
    var answers := Answers(classify, lines, s.pending);
    s.(
      text := s.text + data, desk := Serving(s.desk, Messages(classify, lines)), settled := s.settled + answers,
      pending := set id | id in s.pending && forall i :: 0 <= i < |answers| ==> answers[i].id != id)
  }

  function Reading<M>(s: State<M>): State<M> {
    var next := s.(readers := s.readers + 1);
    if s.desk.queue != [] then
      var message := s.desk.queue[0];
      next.(desk := Desk(s.desk.queue[1..], s.desk.waiters, s.desk.handed + [Handed(s.readers, message)]))
    else if s.ended then next
    else next.(desk := s.desk.(waiters := s.desk.waiters + [s.readers]))
  }

  function Asking<M>(s: State<M>, sendFails: bool): State<M> {
    var id := s.issued + 1;
    if sendFails then s.(issued := id, settled := s.settled + [Settled(id, SendFailed)])
    else s.(issued := id, pending := s.pending + {id})
  }

  function TimingOut<M>(s: State<M>, id: int): State<M> {
    if id in s.pending then s.(pending := s.pending - {id}, settled := s.settled + [Settled(id, TimedOut)]) else s
  }

  function GivingUp<M>(s: State<M>, reader: nat): State<M> {
    s.(desk := s.desk.(waiters := Without(s.desk.waiters, reader)))
  }

  // Nothing happens any more after a null.
  ghost function After<M>(classify: string -> Line<M>, s: State<M>, step: Step): State<M> {
    if !NoNull(classify, Lines(s.text)) then s
    else match step
      case Data(chunk) => Receiving(classify, s, Utf8.Decode(chunk))
      case Read => Reading(s)
      case ReadTimer(reader) => GivingUp(s, reader)
      case Ask(sendFails) => Asking(s, sendFails)
      case AskTimer(id) => TimingOut(s, id)
      case ChildError => Closing(s)
      case ChildClose => Closing(s).(ended := true)
  }

  ghost function StateAfter<M>(classify: string -> Line<M>, steps: seq<Step>): State<M> {
    if steps == [] then State("", Desk([], [], []), 0, 0, {}, [], false)
    else After(classify, StateAfter(classify, steps[..|steps| - 1]), steps[|steps| - 1])
  }

  ghost predicate IsSettled(settled: seq<Settled>, id: int) {
    exists i :: 0 <= i < |settled| && settled[i].id == id
  }

  // Each of the issued requests, 1 to issued, is pending or settled, and settled once.
  ghost predicate ExactlyOnce(issued: nat, pending: set<int>, settled: seq<Settled>) {
    && (forall id :: 1 <= id <= issued <==> id in pending || IsSettled(settled, id))
    && (forall id :: id in pending ==> !IsSettled(settled, id))
    && (forall i, j :: 0 <= i < j < |settled| ==> settled[i].id != settled[j].id)
  }

  // What is pending after some answers is what was pending and was not answered.
  lemma PendingLeft(issued: nat, before: set<int>, settled: seq<Settled>, after: set<int>, answers: seq<Settled>)
    requires ExactlyOnce(issued, before, settled) && ExactlyOnce(issued, after, settled + answers)
    ensures after == set id | id in before && forall i :: 0 <= i < |answers| ==> answers[i].id != id
  {
    var all := settled + answers;
    forall id ensures IsSettled(all, id) <==> IsSettled(settled, id) || IsSettled(answers, id) {
      if i :| 0 <= i < |answers| && answers[i].id == id {
        assert all[|settled| + i].id == id;
      }
      if i :| 0 <= i < |settled| && settled[i].id == id {
        assert all[i].id == id;
      }
    }
    var left := set id | id in before && forall i :: 0 <= i < |answers| ==> answers[i].id != id;
    forall id ensures id in after <==> id in left {
      assert id in left <==> id in before && !IsSettled(answers, id);
    }
  }

  // ---- the client ----

  class Client<M> {
    const classify: string -> Line<M>
    var nextId: nat
    var pending: set<int>           // requests not settled yet
    var requestTimers: set<int>     // armed request timers
    var desk: Desk<M>               // queue and waiters
    var readTimers: set<nat>        // armed reader timers
    var nextReader: nat
    var buffer: string
    var ended: bool
    var crashed: bool               // an uncaught TypeError has ended the process

    // Histories: the text that came from the child, and how requests were settled.
    ghost var received: string
    var settled: seq<Settled>

    // Nothing is lost, duplicated or reordered, whatever the chunks and the readers do.
    ghost predicate NoLoss()
      reads `desk, `received
    {
      desk.Passed() == Messages(classify, Lines(received))
    }

    ghost predicate Framed()
      reads `crashed, `buffer, `received
    {
      if crashed then !NoNull(classify, Lines(received))
      else buffer == Rest(received) && NoNull(classify, Lines(received))
    }

    // Queue and waiters are never both non-empty, and a reader's timer is armed exactly
    // while it waits.
    ghost predicate Readers()
      reads `desk, `readTimers, `nextReader
    {
      && desk.Valid()
      && (forall w :: w in desk.waiters <==> w in readTimers)
      && (forall w :: w in desk.waiters ==> w < nextReader)
    }

    // Every issued request is pending with its timer armed, or settled exactly once.
    ghost predicate Requests()
      reads `nextId, `pending, `requestTimers, `settled
    {
      && nextId >= 1 && pending == requestTimers
      && (forall i, j :: 0 <= i < j < |settled| ==> settled[i].id != settled[j].id)
      && (forall id :: 1 <= id < nextId <==> id in pending || exists i :: 0 <= i < |settled| && settled[i].id == id)
      && (forall i :: 0 <= i < |settled| ==> settled[i].id !in pending)
    }

    ghost predicate Valid()
      reads this
    {
      NoLoss() && Framed() && Readers() && Requests()
    }

    ghost function Now(): State<M>
      reads this
    {
      State(received, desk, if nextId == 0 then 0 else nextId - 1, nextReader, pending, settled, ended)
    }

    constructor (classify: string -> Line<M>)
      ensures Valid() && !crashed && !ended && received == "" && desk == Desk([], [], []) && settled == []
      ensures nextId == 1 && Now() == State("", Desk([], [], []), 0, 0, {}, [], false)
      ensures this.classify == classify
    {
      this.classify := classify;
      nextId, pending, requestTimers, settled := 1, {}, {}, [];
      desk, readTimers, nextReader := Desk([], [], []), {}, 0;
      buffer, ended, crashed, received := "", false, false, "";
    }

    // ---- requests ----

    // request(): the timer is armed before the line is written.
    method Request(sendFails: bool) returns (id: nat)
      requires Valid()
      modifies `nextId, `pending, `requestTimers, `settled
      ensures Valid() && id == old(nextId) && nextId == id + 1
      ensures if sendFails then pending == old(pending) && settled == old(settled) + [Settled(id, SendFailed)]
              else pending == old(pending) + {id} && settled == old(settled)
      ensures Now() == old(Asking(Now(), sendFails))
    {
      hide NoLoss, Framed, Readers;
      id := nextId;
      nextId := nextId + 1;
      pending := pending + {id};
      requestTimers := requestTimers + {id};
      if sendFails {
        Settle(id, SendFailed);
      }
    }

    // Removing a pending request, clearing its timer and settling its promise.
    method Settle(id: int, how: Settlement)
      requires Requests() && id in pending
      modifies `pending, `requestTimers, `settled
      ensures Requests()
      ensures pending == old(pending) - {id} && settled == old(settled) + [Settled(id, how)]
    {
      pending := pending - {id};
      requestTimers := requestTimers - {id};
      settled := settled + [Settled(id, how)];
      assert settled[|settled| - 1].id == id;
      assert forall i :: 0 <= i < |old(settled)| ==> settled[i] == old(settled)[i];
    }

    // A request timer fires; it is armed only while its request is pending.
    method RequestTimeout(id: int)
      requires Valid() && id in requestTimers
      modifies `pending, `requestTimers, `settled
      ensures Valid() && pending == old(pending) - {id} && settled == old(settled) + [Settled(id, TimedOut)]
      ensures Now() == old(TimingOut(Now(), id))
    {
      hide NoLoss, Framed, Readers;
      Settle(id, TimedOut);
    }

    // ---- readers ----

    method NextMessage() returns (r: ReadResult<M>)
      requires Valid() && !crashed
      modifies `desk, `readTimers, `nextReader
      ensures Valid()
      ensures
        if old(desk).queue != [] then
          r == Got(old(desk).queue[0])
          && desk == Desk(old(desk).queue[1..], [], old(desk).handed + [Handed(old(nextReader), old(desk).queue[0])])
        else if ended then r == Nothing && desk == old(desk)
        else r == Waiting(old(nextReader)) && desk == old(desk).(waiters := old(desk).waiters + [old(nextReader)])
      ensures Now() == old(Reading(Now()))
    {
      hide Framed, Messages, Lines;
      var reader := nextReader;
      nextReader := nextReader + 1;
      if desk.queue != [] {
        var message := desk.queue[0];
        desk := Desk(desk.queue[1..], desk.waiters, desk.handed + [Handed(reader, message)]);
        assert desk.Passed() == old(desk).Passed();
        return Got(message);
      }
      if ended {
        return Nothing;
      }
      desk := desk.(waiters := desk.waiters + [reader]);
      readTimers := readTimers + {reader};
      r := Waiting(reader);
    }

    // A reader's timer fires: it removes its own waiter and the reader gets null.
    method ReaderTimeout(reader: nat)
      requires Valid() && reader in readTimers
      modifies `desk, `readTimers
      ensures Valid() && desk == old(desk).(waiters := desk.waiters) && reader !in desk.waiters
      ensures exists k :: 0 <= k < |old(desk).waiters| && Removed(old(desk).waiters, k, reader, desk.waiters)
      ensures Now() == old(GivingUp(Now(), reader))
    {
      hide Framed, Requests, Messages, Lines, Without;
      var k := IndexOf(desk.waiters, reader);
      SpliceRemoves(desk.waiters, k);
      SpliceIsWithout(desk.waiters, reader);
      desk := desk.(waiters := Splice(desk.waiters, k));
      assert Removed(old(desk).waiters, k, reader, desk.waiters);
      readTimers := readTimers - {reader};
    }

    // ---- child events ----

    // A chunk of stdout is decoded by itself, as no encoding is set on the stream; the
    // lines it completes are handled one after the other.
    method OnData(chunk: seq<Byte>)
      requires Valid() && !crashed
      modifies `buffer, `received, `desk, `readTimers, `pending, `requestTimers, `settled, `crashed
      ensures Valid() && received == old(received) + Utf8.Decode(chunk)
      ensures desk == PostAll(old(desk), Messages(classify, Lines(old(buffer) + Utf8.Decode(chunk))))
      ensures settled == old(settled) + Answers(classify, Lines(old(buffer) + Utf8.Decode(chunk)), old(pending))
      ensures crashed <==> !NoNull(classify, Lines(received))
      ensures Now() == old(Receiving(classify, Now(), Utf8.Decode(chunk)))
    {
      ghost var before, were := Now(), settled;
      EachOnce();
      Receive(chunk);
      EachOnce();
      Received(before, Utf8.Decode(chunk));
    }

    // The received text and the requests left are what they are to be.
    lemma Received(before: State<M>, data: string)
      requires before.issued == nextId - 1 >= 0 && before.readers == nextReader && before.ended == ended
      requires received == before.text + data
      requires
        var lines := Lines(Rest(before.text) + data);
        && desk == PostAll(before.desk, Messages(classify, lines))
        && settled == before.settled + Answers(classify, lines, before.pending)
      requires ExactlyOnce(before.issued, before.pending, before.settled) && ExactlyOnce(nextId - 1, pending, settled)
      ensures Now() == Receiving(classify, before, data)
    {
      hide Lines, Rest, Messages, Answers, PostAll, ExactlyOnce;
      var lines := Lines(Rest(before.text) + data);
      var messages := Messages(classify, lines);
      PostAllServes(
        before.desk, messages, if |messages| < |before.desk.waiters| then |messages| else |before.desk.waiters|);
      PendingLeft(before.issued, before.pending, before.settled, pending, Answers(classify, lines, before.pending));
    }

    lemma EachOnce()
      requires Valid()
      ensures nextId >= 1 && ExactlyOnce(nextId - 1, pending, settled)
      ensures !crashed ==> buffer == Rest(received)
    {
    }

    method Receive(chunk: seq<Byte>)
      requires Valid() && !crashed
      modifies `buffer, `received, `desk, `readTimers, `pending, `requestTimers, `settled, `crashed
      ensures Valid() && received == old(received) + Utf8.Decode(chunk)
      ensures desk == PostAll(old(desk), Messages(classify, Lines(old(buffer) + Utf8.Decode(chunk))))
      ensures settled == old(settled) + Answers(classify, Lines(old(buffer) + Utf8.Decode(chunk)), old(pending))
      ensures crashed <==> !NoNull(classify, Lines(received))
    {
      hide Utf8.Decode, ReadLine, Requests, Post, Messages, Answers, Lines, Rest, PostAll, NoNull;
      var data := Utf8.Decode(chunk);
      var whole := buffer + data;
      NoNullAppend(classify, Lines(received), Lines(whole));
      ghost var messages := Messages(classify, Lines(whole));
      FramingIsChunkIndependent(received, data);
      MessagesAppend(classify, Lines(received), Lines(whole));
      PostAllConserves(desk, messages);
      buffer := whole;
      received := received + data;
      DrainBuffer();
    }

    // drainBuffer().  The contract describes the lines still in the buffer.
    method DrainBuffer()
      requires Readers() && Requests() && !crashed
      modifies `buffer, `desk, `readTimers, `pending, `requestTimers, `settled, `crashed
      ensures Readers() && Requests()
      ensures desk == PostAll(old(desk), Messages(classify, Lines(old(buffer))))
      ensures settled == old(settled) + Answers(classify, Lines(old(buffer)), old(pending))
      ensures crashed <==> !NoNull(classify, Lines(old(buffer)))
      ensures !crashed ==> buffer == Rest(old(buffer))
    {
      hide ReadLine, Readers, Requests, Post, Messages, Answers, Lines, Rest, NoNull;
      ghost var whole := buffer;
      while true
        invariant Readers() && Requests() && !crashed
        invariant PostAll(desk, Messages(classify, Lines(buffer))) ==
          PostAll(old(desk), Messages(classify, Lines(whole)))
        invariant settled + Answers(classify, Lines(buffer), pending) ==
          old(settled) + Answers(classify, Lines(whole), old(pending))
        invariant NoNull(classify, Lines(buffer)) <==> NoNull(classify, Lines(whole))
        invariant Rest(buffer) == Rest(whole)
        decreases |buffer|
      {
        var i := NewlineAt(buffer);
        if i == |buffer| {
          NoLines(classify, buffer, pending);
          return;
        }
        var raw := buffer[..i];
        FirstLine(classify, buffer, pending);
        buffer := buffer[i + 1..];
        HandleLine(raw);
        if crashed {
          return;
        }
      }
    }

    method HandleLine(raw: string)
      requires Readers() && Requests() && !crashed
      modifies `desk, `readTimers, `pending, `requestTimers, `settled, `crashed
      ensures Readers() && Requests()
      ensures
        var line := ReadLine(classify, raw);
        && crashed == line.NullValue?
        && desk == (if line.Notice? then Post(old(desk), line.message) else old(desk))
        && if line.Response? && line.id in old(pending) then
             settled == old(settled) + [Settled(line.id, Answered(line.isError))] && pending == old(pending) - {line.id}
           else settled == old(settled) && pending == old(pending)
    {
      var line := Trim(DropCarriageReturn(raw));
      TrimmedTwice(raw);
      match if line == "" then Blank else classify(line)
      case Blank =>
      case Invalid =>
      case NullValue =>
        crashed := true;
      case Response(id, isError) =>
        if id in pending {
          Settle(id, Answered(isError));
        }
      case Notice(message) =>
        PushQueue(message);
    }

    method PushQueue(message: M)
      requires Readers()
      modifies `desk, `readTimers
      ensures Readers() && desk == Post(old(desk), message)
    {
      if desk.waiters != [] {
        readTimers := readTimers - {desk.waiters[0]};
        desk := desk.(waiters := desk.waiters[1..], handed := desk.handed + [Handed(desk.waiters[0], message)]);
      } else {
        desk := desk.(queue := desk.queue + [message]);
      }
    }

    method OnError()
      requires Valid()
      modifies `desk, `readTimers, `pending, `requestTimers, `settled
      ensures Valid() && pending == {} && desk == old(desk).(waiters := [])
      ensures ClosedOut(old(settled), old(pending)) && Now() == old(Closing(Now()))
    {
      hide Framed, Readers, ClosedOut, Messages, Lines, ClosedUpTo;
      assert nextId >= 1;
      hide Requests;
      RejectAll();
      assert desk.Passed() == old(desk).Passed();
    }

    method OnClose()
      requires Valid()
      modifies `ended, `desk, `readTimers, `pending, `requestTimers, `settled
      ensures Valid() && ended && pending == {} && desk == old(desk).(waiters := [])
      ensures ClosedOut(old(settled), old(pending)) && Now() == old(Closing(Now()).(ended := true))
    {
      hide Framed, Readers, Requests, ClosedOut, NoLoss, ClosedUpTo;
      ended := true;
      OnError();
    }

    // Exactly the requests that were pending have been settled, as closed.
    ghost predicate ClosedOut(before: seq<Settled>, were: set<int>)
      reads `settled
    {
      && before <= settled
      && (forall i :: |before| <= i < |settled| ==> settled[i].id in were && settled[i].how == Closed)
      && forall id :: id in were ==> Settled(id, Closed) in settled[|before|..]
    }

    method RejectAll()
      requires Readers() && Requests()
      modifies `desk, `readTimers, `pending, `requestTimers, `settled
      ensures Readers() && Requests() && pending == {} && desk == old(desk).(waiters := [])
      ensures ClosedOut(old(settled), old(pending))
      ensures settled == old(settled) + ClosedUpTo(old(pending), nextId - 1)
    {
      hide Requests, ClosedOut, ClosedUpTo;
      CloseRequests();
      desk := desk.(waiters := []);
      readTimers := {};
    }

    // The pending Map in insertion order, that is by ascending id.
    method CloseRequests()
      requires Requests()
      modifies `pending, `requestTimers, `settled
      ensures Requests() && pending == {} && ClosedOut(old(settled), old(pending))
      ensures settled == old(settled) + ClosedUpTo(old(pending), nextId - 1)
    {
      hide ClosedUpTo;
      ClosesNothing(pending);
      for id := 1 to nextId
        invariant Requests() && pending <= old(pending)
        invariant forall x :: x in pending <==> x in old(pending) && x >= id
        invariant settled == old(settled) + ClosedUpTo(old(pending), id - 1)
      {
        ClosesOne(old(pending), id);
        if id in pending {
          Settle(id, Closed);
        }
      }
      assert forall x :: x in pending ==> 1 <= x < nextId;
      assert pending == {};
      ClosesEach(old(pending), nextId - 1);
    }
  }

  // ---- whole runs ----

  // The pieces in which the output of the child arrives.
  function Chunks(steps: seq<Step>): seq<seq<Byte>> {
    if steps == [] then [] else Chunks(steps[..|steps| - 1]) + ChunkOf(steps[|steps| - 1])
  }

  function ChunkOf(step: Step): seq<seq<Byte>> {
    if step.Data? then [step.chunk] else []
  }

  // What the client makes of them: each is decoded by itself.
  function TextOf(steps: seq<Step>): string {
    Utf8.DecodeChunks(Chunks(steps))
  }

  ghost predicate HasResponse<M>(classify: string -> Line<M>, lines: seq<string>, id: int, isError: bool) {
    exists i :: Reads(classify, lines, i, Response(id, isError))
  }

  // Every answer has a response line with the id and the verdict of the request.
  ghost predicate AnswersAreReal<M>(classify: string -> Line<M>, settled: seq<Settled>, text: string) {
    forall i :: 0 <= i < |settled| && settled[i].how.Answered? ==>
      HasResponse(classify, Lines(text), settled[i].id, settled[i].how.isError)
  }

  lemma LinesKeepResponses<M>(classify: string -> Line<M>, a: seq<string>, b: seq<string>, id: int, isError: bool)
    ensures HasResponse(classify, a, id, isError) ==> HasResponse(classify, a + b, id, isError)
    ensures HasResponse(classify, b, id, isError) ==> HasResponse(classify, a + b, id, isError)
  {
    var line := Response(id, isError);
    if i :| Reads(classify, a, i, line) {
      assert Reads(classify, a + b, i, line);
    }
    if i :| Reads(classify, b, i, line) {
      assert Reads(classify, a + b, |a| + i, line);
    }
  }

  // More text takes no response line away.
  lemma StillReal<M>(classify: string -> Line<M>, settled: seq<Settled>, text: string, chunk: string)
    requires AnswersAreReal(classify, settled, text)
    ensures AnswersAreReal(classify, settled, text + chunk)
  {
    hide HasResponse, Lines, Rest;
    FramingIsChunkIndependent(text, chunk);
    forall i | 0 <= i < |settled| && settled[i].how.Answered?
      ensures HasResponse(classify, Lines(text + chunk), settled[i].id, settled[i].how.isError)
    {
      LinesKeepResponses(classify, Lines(text), Lines(Rest(text) + chunk), settled[i].id, settled[i].how.isError);
    }
  }

  lemma NewAnswersAreReal<M>(
    classify: string -> Line<M>, settled: seq<Settled>, text: string, chunk: string, pending: set<int>)
    requires AnswersAreReal(classify, settled, text)
    ensures AnswersAreReal(classify, settled + Answers(classify, Lines(Rest(text) + chunk), pending), text + chunk)
  {
    hide HasResponse, Lines, Rest, Answers;
    var lines := Lines(Rest(text) + chunk);
    var answers := Answers(classify, lines, pending);
    StillReal(classify, settled, text, chunk);
    FramingIsChunkIndependent(text, chunk);
    forall i | 0 <= i < |answers|
      ensures answers[i].how.Answered?
      ensures HasResponse(classify, Lines(text + chunk), answers[i].id, answers[i].how.isError)
    {
      AnswerHasResponse(classify, lines, pending, answers[i]);
      LinesKeepResponses(classify, Lines(text), lines, answers[i].id, answers[i].how.isError);
    }
  }

  lemma AnswerHasResponse<M>(classify: string -> Line<M>, lines: seq<string>, pending: set<int>, answer: Settled)
    requires answer in Answers(classify, lines, pending)
    ensures answer.how.Answered? && HasResponse(classify, lines, answer.id, answer.how.isError)
  {
    hide Answers;
    AnswersMatch(classify, lines, pending);
  }

  lemma OthersAreNoAnswers<M>(classify: string -> Line<M>, before: seq<Settled>, after: seq<Settled>, text: string)
    requires AnswersAreReal(classify, before, text) && before <= after
    requires forall i :: |before| <= i < |after| ==> !after[i].how.Answered?
    ensures AnswersAreReal(classify, after, text)
  {
    hide HasResponse, Lines;
  }

  // Any interleaving of chunks, reads, timers, requests and child events: the messages
  // handed to readers followed by the queue are the messages of the decoded chunks, in
  // order, which are those of the decoded output unless a chunk begins in the middle of
  // a character; messages and readers never wait for each other; every issued request is
  // pending or settled exactly once, none is pending after a close, an answered one was
  // answered by a response line with its id, and such a line answers a request that is
  // pending when it is completed.  Timers that are not armed, and anything after the
  // process has ended, are skipped.
  method Run<M>(classify: string -> Line<M>, steps: seq<Step>)
    returns (handed: seq<M>, queue: seq<M>, waiting: bool, issued: nat, pending: set<int>, settled: seq<Settled>)
    ensures
      var s := StateAfter(classify, steps);
      && handed == s.desk.Given() && queue == s.desk.queue && (waiting <==> s.desk.waiters != [])
      && issued == s.issued && pending == s.pending && settled == s.settled
    ensures handed + queue == Messages(classify, Lines(TextOf(steps)))
    ensures Utf8.CutsNoCharacter(Chunks(steps)) ==>
      handed + queue == Messages(classify, Lines(Utf8.Decode(Utf8.Concat(Chunks(steps)))))
    ensures queue == [] || !waiting
    ensures ExactlyOnce(issued, pending, settled)
    ensures AnswersAreReal(classify, settled, TextOf(steps))
    ensures steps != [] && steps[|steps| - 1].ChildClose? && NoNull(classify, Lines(TextOf(steps))) ==>
      pending == {} && !waiting
  {
    hide Lines, Messages, Rest, TextOf, ReadLine, NoNull, AnswersAreReal, Utf8.Decode, Chunks;
    hide After, Client.Valid, Ended, ExactlyOnce, Utf8.CutsNoCharacter;
    var client := new Client(classify);
    NoTextYet(classify);
    assert steps[..0] == [];
    for i := 0 to |steps|
      invariant client.Valid() && fresh(client) && client.classify == classify
      invariant !client.crashed ==> client.received == TextOf(steps[..i])
      invariant client.crashed ==> Ended(client, TextOf(steps[..i]))
      invariant AnswersAreReal(classify, client.settled, TextOf(steps[..i]))
      invariant client.Now() == StateAfter(classify, steps[..i])
      invariant i > 0 && steps[i - 1].ChildClose? && !client.crashed ==>
        client.pending == {} && client.desk.waiters == []
    {
      PerformNext(client, steps, i);
    }
    assert steps[..|steps|] == steps;
    AtTheEnd(client, TextOf(steps));
    WhenNothingIsCut(steps);
    handed, queue, waiting := client.desk.Given(), client.desk.queue, client.desk.waiters != [];
    issued, pending, settled := client.nextId - 1, client.pending, client.settled;
  }

  // The first response to a pending request, among the lines that a chunk completes,
  // settles it with its verdict.
  lemma ResponseSettles<M>(
    classify: string -> Line<M>, s: State<M>, chunk: seq<Byte>, k: int, id: int, isError: bool)
    requires NoNull(classify, Lines(s.text)) && id in s.pending
    requires FirstResponse(classify, Lines(Rest(s.text) + Utf8.Decode(chunk)), k, id, isError)
    ensures
      var after := After(classify, s, Data(chunk));
      Settled(id, Answered(isError)) in after.settled && id !in after.pending
  {
    hide Lines, Rest, NoNull, Answers, Messages, FirstResponse, Serving, Utf8.Decode;
    var lines := Lines(Rest(s.text) + Utf8.Decode(chunk));
    ResponsesAnswer(classify, lines, s.pending, k, id, isError);
  }

  // What is settled stays settled.
  lemma {:induction false} SettledStays<M>(classify: string -> Line<M>, steps: seq<Step>, i: nat)
    requires i <= |steps|
    ensures StateAfter(classify, steps[..i]).settled <= StateAfter(classify, steps).settled
  {
    hide Serving, ClosedUpTo, Answers, NoNull, Messages, Lines, Rest, Utf8.Decode;
    if i == |steps| {
      assert steps[..i] == steps;
    } else {
      var front := steps[..|steps| - 1];
      SettledStays(classify, front, i);
      assert front[..i] == steps[..i];
    }
  }

  // One step of a run, unless the process has ended.
  method PerformNext<M>(client: Client<M>, steps: seq<Step>, i: nat)
    requires client.Valid() && i < |steps|
    requires client.Now() == StateAfter(client.classify, steps[..i])
    requires !client.crashed ==> client.received == TextOf(steps[..i])
    requires client.crashed ==> Ended(client, TextOf(steps[..i]))
    requires AnswersAreReal(client.classify, client.settled, TextOf(steps[..i]))
    modifies client
    ensures client.Valid()
    ensures !client.crashed ==> client.received == TextOf(steps[..i + 1])
    ensures client.crashed ==> Ended(client, TextOf(steps[..i + 1]))
    ensures AnswersAreReal(client.classify, client.settled, TextOf(steps[..i + 1]))
    ensures steps[i].ChildClose? && !client.crashed ==> client.pending == {} && client.desk.waiters == []
    ensures client.Now() == StateAfter(client.classify, steps[..i + 1])
  {
    hide Lines, Messages, Rest, TextOf, ReadLine, NoNull, AnswersAreReal, Answers, Client.Valid, After;
    ghost var before := TextOf(steps[..i]);
    assert steps[..i + 1][..i] == steps[..i];
    ghost var chunk := DecodedStep(steps[i]);
    OneMoreStep(steps, i);
    Crashes(client.classify, before, TextOf(steps[..i + 1]), chunk);
    if client.crashed {
      StillReal(client.classify, client.settled, before, chunk);
      DeadStays(client, steps[i]);
    } else {
      Perform(client, steps[i]);
      assert client.received == TextOf(steps[..i + 1]);
    }
  }

  lemma DeadStays<M>(client: Client<M>, step: Step)
    requires client.Valid() && client.crashed
    ensures After(client.classify, client.Now(), step) == client.Now()
  {
  }

  lemma AtTheEnd<M>(client: Client<M>, text: string)
    requires client.Valid() && (if client.crashed then Ended(client, text) else client.received == text)
    ensures client.nextId >= 1 && ExactlyOnce(client.nextId - 1, client.pending, client.settled)
    ensures client.desk.Given() + client.desk.queue == Messages(client.classify, Lines(text))
    ensures client.desk.queue == [] || client.desk.waiters == []
    ensures client.crashed ==> !NoNull(client.classify, Lines(text))
  {
    hide Messages, Lines, NoNull;
  }

  // The process has ended on a null among the lines of a text.
  ghost predicate Ended<M>(client: Client<M>, text: string)
    reads client
  {
    && !NoNull(client.classify, Lines(text))
    && Messages(client.classify, Lines(client.received)) == Messages(client.classify, Lines(text))
  }

  lemma NoTextYet<M>(classify: string -> Line<M>)
    ensures TextOf([]) == "" && AnswersAreReal(classify, [], "")
  {
  }

  lemma OneMoreStep(steps: seq<Step>, i: nat)
    requires i < |steps|
    ensures TextOf(steps[..i + 1]) == TextOf(steps[..i]) + DecodedStep(steps[i])
  {
    hide Utf8.Decode;
    assert steps[..i + 1][..i] == steps[..i];
    var before := Chunks(steps[..i]);
    if steps[i].Data? {
      Utf8.OneMoreChunk(before, steps[i].chunk);
    } else {
      assert before + [] == before;
    }
  }

  lemma WhenNothingIsCut(steps: seq<Step>)
    ensures Utf8.CutsNoCharacter(Chunks(steps)) ==> TextOf(steps) == Utf8.Decode(Utf8.Concat(Chunks(steps)))
  {
    hide Chunks;
    if Utf8.CutsNoCharacter(Chunks(steps)) {
      Utf8.DecodeInChunks(Chunks(steps));
    }
  }

  lemma Crashes<M>(classify: string -> Line<M>, before: string, after: string, chunk: string)
    requires after == before + chunk
    ensures !NoNull(classify, Lines(before)) ==>
      !NoNull(classify, Lines(after)) && Messages(classify, Lines(after)) == Messages(classify, Lines(before))
  {
    hide Lines, Messages, Rest, NoNull;
    FramingIsChunkIndependent(before, chunk);
    if !NoNull(classify, Lines(before)) {
      NothingAfterNull(classify, Lines(before), Lines(Rest(before) + chunk));
    }
  }

  method Perform<M>(client: Client<M>, step: Step)
    requires client.Valid() && !client.crashed
    requires AnswersAreReal(client.classify, client.settled, client.received)
    modifies client
    ensures client.Valid()
    ensures client.received == old(client.received) + DecodedStep(step)
    ensures client.crashed ==> !NoNull(client.classify, Lines(client.received))
    ensures AnswersAreReal(client.classify, client.settled, client.received)
    ensures client.Now() == old(After(client.classify, client.Now(), step))
    ensures step.ChildClose? ==> client.pending == {} && client.desk.waiters == []
  {
    hide Client.Valid;
    hide AnswersAreReal, Lines, Rest, Messages, Answers, PostAll, NoNull, ReadLine, Utf8.Decode;
    hide Receiving, Reading, GivingUp, Asking, TimingOut, Closing;
    ghost var before := client.settled;
    Armed(client);
    match step {
      case Data(chunk) =>
        NewAnswersAreReal(client.classify, client.settled, client.received, Utf8.Decode(chunk), client.pending);
        client.OnData(chunk);
      case Read => var _ := client.NextMessage();
      case ReadTimer(reader) => if reader in client.readTimers { client.ReaderTimeout(reader); }
      case Ask(sendFails) => var _ := client.Request(sendFails);
      case AskTimer(id) => if id in client.requestTimers { client.RequestTimeout(id); }
      case ChildError => client.OnError();
      case ChildClose => client.OnClose();
    }
    if !step.Data? {
      OthersAreNoAnswers(client.classify, before, client.settled, client.received);
    }
  }

  // Timers are armed for what is pending and waiting; others have no effect.
  lemma Armed<M>(client: Client<M>)
    requires client.Valid() && !client.crashed
    ensures NoNull(client.classify, Lines(client.received)) && client.buffer == Rest(client.received)
    ensures forall id :: id !in client.requestTimers ==> TimingOut(client.Now(), id) == client.Now()
    ensures forall reader: nat :: reader !in client.readTimers ==> GivingUp(client.Now(), reader) == client.Now()
  {
    hide NoNull, Lines, Rest, Messages;
    forall reader: nat | reader !in client.readTimers
      ensures Without(client.desk.waiters, reader) == client.desk.waiters
    {
      NothingToRemove(client.desk.waiters, reader);
    }
  }

  lemma {:induction false} NothingToRemove(list: seq<nat>, x: nat)
    requires x !in list
    ensures Without(list, x) == list
  {
    if list != [] {
      NothingToRemove(list[1..], x);
    }
  }

  // ---- a character cut in two ----

  function Notices(line: string): Line<string> {
    Notice(line)
  }

  lemma OneSolidLine(line: string)
    requires line != "" && '\n' !in line && !IsSpace(line[0]) && !IsSpace(line[|line| - 1])
    ensures Messages(Notices, Lines(line + "\n")) == [line]
  {
    var text := line + "\n";
    assert forall i :: 0 <= i < |line| ==> text[i] == line[i];
    assert NewlineAt(text) == |line|;
    assert text[..|line|] == line && text[|line| + 1..] == "";
    SolidText(line);
    assert Lines(text) == [line];
    assert ReadLine(Notices, line) == Notice(line);
  }

  lemma TwoStrayBytes()
    ensures Utf8.Decode([0xC3]) == "\U{FFFD}" && Utf8.Decode([0xA9, 0x0A]) == "\U{FFFD}\n"
  {
    var stray: seq<Byte> := [0xA9, 0x0A];
    assert stray[1..] == [0x0A];
    assert Utf8.Width(0xA9) == 0;
  }

  lemma ChunksOfData(a: seq<Byte>, b: seq<Byte>)
    ensures TextOf([Data(a)]) == Utf8.Decode(a)
    ensures TextOf([Data(a), Data(b)]) == Utf8.Decode(a) + Utf8.Decode(b)
  {
    hide Utf8.Decode, TextOf;
    var one, two := [Data(a)], [Data(a), Data(b)];
    assert one[..0] == [] && one[..1] == one && two[..1] == one && two[..2] == two;
    NoTextYet(Notices);
    OneMoreStep(one, 0);
    OneMoreStep(two, 1);
  }

  // The character U+00E9 and a newline, sent at once and cut after the first byte: two
  // U+FFFD are handed out instead.
  method CharacterCutInTwo() returns (sent: seq<string>, got: seq<string>)
    ensures sent == ["\U{00E9}"] && got == ["\U{FFFD}\U{FFFD}"]
  {
    hide Messages, Lines, Trim, TextOf, Chunks, Utf8.Decode, Utf8.CutsNoCharacter;
    hide StateAfter, ExactlyOnce, AnswersAreReal, NoNull;
    var a: seq<Byte>, b: seq<Byte> := [0xC3], [0xA9, 0x0A];
    var text := "\U{00E9}\n";
    assert a + b == Utf8.Encode(text) + [] by {
      assert text[1..] == "\n";
    }
    var whole, queued, _, _, _, _ := Run(Notices, [Data(a + b)]);
    var cut, left, _, _, _, _ := Run(Notices, [Data(a), Data(b)]);
    sent, got := whole + queued, cut + left;
    Utf8.TextRoundTrip(text, []);
    Utf8.NoBytes();
    TwoStrayBytes();
    ChunksOfData(a, b);
    ChunksOfData(a + b, []);
    assert TextOf([Data(a + b)]) == "\U{00E9}" + "\n";
    OneSolidLine("\U{00E9}");
    assert TextOf([Data(a), Data(b)]) == "\U{FFFD}\U{FFFD}" + "\n";
    OneSolidLine("\U{FFFD}\U{FFFD}");
  }
}
