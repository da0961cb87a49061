// controlledCommand: the queue between a child process's callbacks and the generator
// that hands its output to one consumer.  Each method is one uninterrupted step: a
// callback, or the generator running from one suspension to the next.
module ControlledCommand {
  import opened Wrappers
  import opened Text

  const MAX_OUTPUT := 10 * 1024 * 1024

  datatype Chunk = Chunk(isStdout: bool, text: string)

  datatype Outcome = Normal | Uncertain | UpstreamFailure | ChildFailure | CommandFailed | ConsumerLeft

  // Where the generator is: before its loop, suspended at a yield, waiting for a wake-up,
  // woken but not yet running, in the wait of the finally block, or done.
  datatype Position =
    | Starting | Yielding | Waiting | Woken | Draining(left: bool) | Ended(outcome: Outcome)

  // A notification wakes a waiting generator.
  function Awake(at: Position): Position {
    if at.Waiting? then Woken else at
  }

  function TotalBytes(chunks: seq<Chunk>): nat {
    if chunks == [] then 0 else TotalBytes(chunks[..|chunks| - 1]) + ByteLength(chunks[|chunks| - 1].text)
  }

  lemma OneMoreChunk(chunks: seq<Chunk>, chunk: Chunk)
    ensures TotalBytes(chunks + [chunk]) == TotalBytes(chunks) + ByteLength(chunk.text)
  {
    assert (chunks + [chunk])[..|chunks|] == chunks;
  }

  // ---- what each step is to do ----

  datatype Step =
    | TimeOut | Abort | ChildError | ChildClose(value: Option<int>) | Data(chunk: Chunk, detected: bool)
    | Resume(absent: bool) | ConsumerReturns(absent: bool) | Drained

  // The flags of the command, what arrived, is queued and was yielded, and where the
  // generator is.
  datatype State = State(
    closed: bool, stopping: bool, overflow: bool, aborted: bool, code: Option<int>, failure: bool,
    upstreamFailure: bool, closeSeen: bool, arrived: seq<Chunk>, queue: seq<Chunk>, yielded: seq<Chunk>, at: Position)
  {
    function Waking(): State {
      if at.Waiting? then this.(at := Woken) else this
    }

    function Stopping(): State {
      Waking().(stopping := true)
    }

    function Verdict(left: bool): Outcome {
      if left then ConsumerLeft
      else if aborted || (!upstreamFailure && (stopping || overflow)) then Uncertain
      else if upstreamFailure then UpstreamFailure
      else if failure then ChildFailure
      else if code == Some(0) then Normal else CommandFailed
    }

    // The finally block stops what still runs and waits for it.
    function Leaving(absent: bool, left: bool): State {
      var s := if closed && absent then this else Stopping();
      s.(at := if s.stopping then Draining(left) else Ended(Verdict(left)))
    }

    // Output is queued, unless it is too much or shows an error, which stops the command.
    function Receiving(chunk: Chunk, detected: bool): State {
      var s := this.(arrived := arrived + [chunk]);
      if TotalBytes(s.arrived) > 10485760 then s.Stopping().(overflow := true)
      else if stopping then s.Waking()
      else if detected then s.Stopping().(upstreamFailure := true)
      else s.Waking().(queue := queue + [chunk])
    }

    // The generator yields, waits, or leaves its loop.
    function Running(absent: bool): State {
      if stopping then this.(queue := []).Leaving(absent, false)
      else if queue != [] then this.(queue := queue[1..], yielded := yielded + [queue[0]], at := Yielding)
      else if closed then Leaving(absent, false)
      else this.(at := Waiting)
    }

    // A step that cannot happen at its point is skipped.
    function After(step: Step): State {
      if at.Ended? then this
      else match step
        case TimeOut => if at.Draining? then this else Stopping()
        case Abort => Stopping().(aborted := true)
        case ChildError => Waking().(failure := true, closed := true)
        case ChildClose(value) =>
          if closeSeen then this else Waking().(closed := true, code := value, closeSeen := true)
        case Data(chunk, detected) => if closeSeen then this else Receiving(chunk, detected)
        case Resume(absent) => if at.Starting? || at.Yielding? || at.Woken? then Running(absent) else this
        case ConsumerReturns(absent) => if at.Yielding? then Leaving(absent, true) else this
        case Drained => if at.Draining? then this.(at := Ended(Verdict(at.left))) else this
    }
  }

  function StateAfter(signalAborted: bool, steps: seq<Step>): State {
    if steps == [] then
      State(false, signalAborted, false, signalAborted, None, false, false, false, [], [], [], Starting)
    else StateAfter(signalAborted, steps[..|steps| - 1]).After(steps[|steps| - 1])
  }

  class Command {
    var closed: bool
    var stopping: bool
    var overflow: bool
    var aborted: bool
    var code: Option<int>
    var failure: bool
    var upstreamFailure: bool
    var bytes: nat
    var queue: seq<Chunk>
    var at: Position
    ghost var arrived: seq<Chunk>
    var yielded: seq<Chunk>
    // Why the command was stopped: timer, abort, too much output, a detected upstream
    // error, an early return of the consumer, or processes left when it closed.
    ghost var stopped: bool
    var closeSeen: bool

    ghost function Now(): State
      reads this
    {
      State(
        closed, stopping, overflow, aborted, code, failure, upstreamFailure, closeSeen, arrived, queue, yielded, at)
    }

    // Nothing is lost or reordered while the command is not being stopped.
    ghost predicate NoLoss()
      reads `stopping, `arrived, `yielded, `queue
    {
      && yielded <= arrived
      && (!stopping ==> arrived == yielded + queue)
    }

    // No lost wake-up: the generator waits only when it has nothing to do.
    ghost predicate NoLostWakeUp()
      reads `at, `queue, `closed, `stopping
    {
      at.Waiting? ==> queue == [] && !closed && !stopping
    }

    ghost predicate Accounted()
      reads `bytes, `arrived, `overflow, `stopping, `upstreamFailure, `aborted, `stopped, `closeSeen, `closed, `code
    {
      && bytes == TotalBytes(arrived)
      && (overflow ==> stopping)
      && (bytes > MAX_OUTPUT <==> overflow)
      && (upstreamFailure || aborted ==> stopping)
      && (stopping <==> stopped)
      && (closeSeen ==> closed)
      && (code.Some? ==> closeSeen)
    }

    // What a normal return means, and that a stop never ends in one.
    ghost predicate Honest()
      reads `at, `arrived, `yielded, `stopping, `bytes, `code, `failure, `closeSeen
    {
      && (at == Ended(Normal) ==>
            && yielded == arrived && bytes <= MAX_OUTPUT && !stopping && !failure
            && closeSeen && code == Some(0))
      && (at.Draining? ==> stopping)
    }

    ghost predicate Valid()
      reads this
    {
      NoLoss() && NoLostWakeUp() && Accounted() && Honest()
    }

    // After the spawn; an abort that came before is seen at once.
    constructor (signalAborted: bool)
      ensures Valid() && at == Starting && arrived == [] && yielded == [] && (stopped <==> signalAborted)
      ensures !closeSeen && code.None? && Now() == StateAfter(signalAborted, [])
    {
      closed, stopping, overflow, aborted, code := false, signalAborted, false, signalAborted, None;
      failure, upstreamFailure, bytes, queue, at := false, false, 0, [], Starting;
      arrived, yielded, stopped, closeSeen := [], [], signalAborted, false;
    }

    method Notify()
      modifies `at
      ensures at == Awake(old(at))
    {
      if at.Waiting? {
        at := Woken;
      }
    }

    method Stop()
      modifies `stopping, `at, `stopped
      ensures stopping && stopped
      ensures at == if old(at).Waiting? && !old(stopping) then Woken else old(at)
      ensures old(stopping) ==> at == old(at)
    {
      stopped := true;
      if stopping { return; }
      stopping := true;
      Notify();
    }

    // The timeout; its timer is cleared by the finally block.
    method TimeOut()
      requires Valid() && !at.Draining? && !at.Ended?
      modifies `stopping, `at, `stopped
      ensures Valid() && stopped && at == Awake(old(at))
      ensures Now() == old(Now().Stopping())
    {
      Stop();
    }

    method Abort()
      requires Valid() && !at.Ended?
      modifies `aborted, `stopping, `at, `stopped
      ensures Valid() && aborted && stopped && at == Awake(old(at))
      ensures Now() == old(Now().Stopping().(aborted := true))
    {
      aborted := true;
      Stop();
    }

    method ChildError()
      requires Valid() && !at.Ended?
      modifies `failure, `closed, `at
      ensures Valid() && failure && closed && at == Awake(old(at))
      ensures Now() == old(Now().Waking().(failure := true, closed := true))
    {
      hide TotalBytes;
      failure, closed := true, true;
      Notify();
    }

    method ChildClose(value: Option<int>)
      requires Valid() && !at.Ended? && !closeSeen
      modifies `closed, `code, `at, `closeSeen
      ensures Valid() && closed && code == value && closeSeen && at == Awake(old(at))
      ensures Now() == old(Now().Waking().(closed := true, code := value, closeSeen := true))
    {
      hide TotalBytes;
      closed, code, closeSeen := true, value, true;
      Notify();
    }

    // A chunk of output; the close event comes after the last one.
    method Data(chunk: Chunk, detected: bool)
      requires Valid() && !at.Ended? && !closeSeen
      modifies `bytes, `overflow, `stopping, `at, `stopped, `upstreamFailure, `queue, `arrived
      ensures Valid() && arrived == old(arrived) + [chunk]
      ensures stopping <==> old(stopping) || detected || TotalBytes(arrived) > MAX_OUTPUT
      ensures queue == if stopping then old(queue) else old(queue) + [chunk]
      ensures at == Awake(old(at)) && overflow == (TotalBytes(arrived) > MAX_OUTPUT)
      ensures upstreamFailure ==
        (old(upstreamFailure) || (detected && !old(stopping) && TotalBytes(arrived) <= MAX_OUTPUT))
      ensures Now() == old(Now().Receiving(chunk, detected))
    {
      hide TotalBytes, ByteLength;
      OneMoreChunk(arrived, chunk);
      arrived := arrived + [chunk];
      bytes := bytes + ByteLength(chunk.text);
      if bytes > MAX_OUTPUT {
        overflow := true;
        Stop();
      } else if !stopping && detected {
        upstreamFailure := true;
        Stop();
      } else {
        if !stopping {
          queue := queue + [chunk];
        }
        Notify();
      }
    }

    // The generator runs: to the next yield or wait, or out of its loop.
    method Resume(absent: bool) returns (chunk: Option<Chunk>)
      requires Valid() && (at.Starting? || at.Yielding? || at.Woken?)
      modifies `queue, `at, `yielded, `stopping, `stopped
      ensures Valid() && (old(stopping) ==> stopping)
      ensures yielded == old(yielded) + if chunk.Some? then [chunk.value] else []
      ensures chunk.Some? <==> !old(stopping) && old(queue) != []
      ensures chunk.Some? ==> at.Yielding? && chunk.value == old(queue)[0] && queue == old(queue)[1..]
      ensures at.Waiting? <==> !old(stopping) && old(queue) == [] && !closed
      ensures !at.Waiting? && chunk.None? ==>
        && stopping == (old(stopping) || !closed || !absent)
        && at == if stopping then Draining(false) else Ended(Result(false))
      ensures at == Ended(Normal) <==>
        && !old(stopping) && old(queue) == [] && closed && absent && !failure && code == Some(0)
      ensures Now() == old(Now().Running(absent))
    {
      hide TotalBytes;
      chunk := None;
      if !closed || queue != [] {
        if stopping {
          queue := [];
        } else if queue != [] {
          chunk := Some(queue[0]);
          yielded := yielded + [queue[0]];
          queue, at := queue[1..], Yielding;
          return;
        } else {
          at := Waiting;
          return;
        }
      }
      Finally(absent, false);
    }

    // The consumer stops iterating while the generator is at a yield.
    method ConsumerReturns(absent: bool)
      requires Valid() && at.Yielding?
      modifies `at, `stopping, `stopped
      ensures Valid() && (old(stopping) ==> stopping) && (at == Draining(true) || at == Ended(ConsumerLeft))
      ensures at == Ended(ConsumerLeft) ==> closed && absent && !stopping
      ensures Now() == old(Now().Leaving(absent, true))
    {
      Finally(absent, true);
    }

    // The finally block up to its wait: anything still running is stopped.
    method Finally(absent: bool, left: bool)
      requires NoLoss() && Accounted() && !at.Draining? && !at.Ended? && !at.Waiting?
      requires left || stopping || (closed && queue == [])
      modifies `at, `stopping, `stopped
      ensures NoLoss() && Accounted() && Honest() && !at.Waiting?
      ensures stopping <==> old(stopping) || !closed || !absent
      ensures at == if stopping then Draining(left) else Ended(Result(left))
      ensures Now() == old(Now().Leaving(absent, left))
    {
      if !closed || !absent {
        Stop();
      }
      if stopping {
        at := Draining(left);
      } else {
        at := Ended(Result(left));
      }
    }

    function Result(left: bool): Outcome
      reads `aborted, `upstreamFailure, `stopping, `overflow, `failure, `code
    {
      if left then ConsumerLeft
      else if aborted then Uncertain
      else if upstreamFailure then UpstreamFailure
      else if stopping || overflow then Uncertain
      else if failure then ChildFailure
      else if code != Some(0) then CommandFailed
      else Normal
    }

    // The wait in the finally block is over: the processes are gone or the time is up.
    method Drained()
      requires Valid() && at.Draining?
      modifies `at
      ensures Valid() && at.Ended? && at != Ended(Normal)
      ensures !old(at).left ==> at == Ended(if aborted || !upstreamFailure then Uncertain else UpstreamFailure)
      ensures Now() == old(Now().(at := Ended(Now().Verdict(at.left))))
    {
      at := Ended(Result(at.left));
    }
  }

  // ---- whole runs ----

  predicate Closed(steps: seq<Step>) {
    exists i :: 0 <= i < |steps| && steps[i].ChildClose?
  }

  // The child's output: everything before its close event.
  function Output(steps: seq<Step>): seq<Chunk> {
    if steps == [] then []
    else
      var before, last := steps[..|steps| - 1], steps[|steps| - 1];
      Output(before) + if last.Data? && !Closed(before) then [last.chunk] else []
  }

  lemma OutputOneMore(steps: seq<Step>, i: nat)
    requires i < |steps|
    ensures Output(steps[..i + 1]) ==
      Output(steps[..i]) + if steps[i].Data? && !Closed(steps[..i]) then [steps[i].chunk] else []
    ensures Closed(steps[..i + 1]) <==> Closed(steps[..i]) || steps[i].ChildClose?
  {
    var now := steps[..i + 1];
    assert now[..i] == steps[..i] && now[i] == steps[i];
    if Closed(steps[..i]) {
      var j :| 0 <= j < i && steps[..i][j].ChildClose?;
      assert now[j].ChildClose?;
    }
  }

  // Any interleaving of callbacks, wake-ups and consumer steps (those that cannot happen
  // at their point are skipped): the consumer sees a prefix of the output; a normal
  // return means all of it, within the limit, after a close with code 0; a generator that
  // waits has nothing to do: all output is yielded and no stop or close has come; and once
  // a stop has begun, no later step leads to a normal return.
  method Run(signalAborted: bool, steps: seq<Step>) returns (at: Position, yielded: seq<Chunk>, stopped: bool)
    ensures yielded <= Output(steps)
    ensures at == Ended(Normal) ==>
      && yielded == Output(steps) && TotalBytes(yielded) <= MAX_OUTPUT
      && !stopped && ChildClose(Some(0)) in steps
    ensures at.Waiting? ==> yielded == Output(steps) && !stopped && !Closed(steps)
    ensures signalAborted ==> stopped
    ensures
      var s := StateAfter(signalAborted, steps);
      at == s.at && yielded == s.yielded && stopped == s.stopping
  {
    hide Output, Closed, TotalBytes;
    var command := new Command(signalAborted);
    assert steps[..0] == [];
    NoOutputYet();
    for i := 0 to |steps|
      invariant command.Valid() && fresh(command) && (signalAborted ==> command.stopping)
      invariant command.Now() == StateAfter(signalAborted, steps[..i])
      invariant command.yielded <= command.arrived <= Output(steps[..i])
      invariant command.closeSeen ==> Closed(steps[..i])
      invariant command.code.Some? ==> ChildClose(command.code) in steps
      invariant !command.at.Ended? || command.at == Ended(Normal) ==>
        command.arrived == Output(steps[..i]) && command.closeSeen == Closed(steps[..i])
    {
      OutputOneMore(steps, i);
      assert steps[..i + 1][..i] == steps[..i];
      Perform(command, steps[i]);
    }
    assert steps[..|steps|] == steps;
    at, yielded, stopped := command.at, command.yielded, command.stopping;
  }

  lemma NoOutputYet()
    ensures Output([]) == [] && !Closed([])
  {
  }

  method Perform(command: Command, step: Step)
    requires command.Valid()
    modifies command
    ensures command.Valid()
    ensures old(command.stopping) ==> command.stopping
    ensures command.arrived == old(command.arrived) + (
      if step.Data? && !old(command.at.Ended?) && !old(command.closeSeen) then [step.chunk] else [])
    ensures command.closeSeen == (old(command.closeSeen) || (step.ChildClose? && !old(command.at.Ended?)))
    ensures command.code ==
      if step.ChildClose? && !old(command.at.Ended?) && !old(command.closeSeen) then step.value else old(command.code)
    ensures old(command.at.Ended?) ==> command.at == old(command.at) && command.yielded == old(command.yielded)
    ensures command.Now() == old(command.Now().After(step))
  {
    hide TotalBytes, State.Stopping, State.Waking, State.Receiving, State.Running, State.Leaving, State.Verdict;
    var at := command.at;
    if at.Ended? { return; }
    match step
    case TimeOut => if !at.Draining? { command.TimeOut(); }
    case Abort => command.Abort();
    case ChildError => command.ChildError();
    case ChildClose(value) => if !command.closeSeen { command.ChildClose(value); }
    case Data(chunk, detected) => if !command.closeSeen { command.Data(chunk, detected); }
    case Resume(absent) => if at.Starting? || at.Yielding? || at.Woken? { var _ := command.Resume(absent); }
    case ConsumerReturns(absent) => if at.Yielding? { command.ConsumerReturns(absent); }
    case Drained => if at.Draining? { command.Drained(); }
  }
}
