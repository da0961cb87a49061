// ProviderSessionManager: one session record with its byte-bounded transcript, its
// subscribers and its life cycle.  Each method is one callback or API call.
module Session {
  import opened Wrappers

  datatype Status = Starting | Running | Completed | Failed | Terminated | TimedOut {
    predicate Final() { this != Starting && this != Running }
    predicate Stopped() { this == Terminated || this == TimedOut }
  }

  datatype Event =
    | Output(data: string) | Reasoning(summary: string)
    | StatusEvent(status: Status, message: string) | Exit(exitCode: Option<int>)

  datatype Entry = Entry(cursor: nat, event: Event)

  // The serialized size of an entry; its time stamp always has the same length.
  type Size = Entry -> nat

  // Whether a listener unsubscribes inside its callback for an event.
  type Quits = (nat, Entry) -> bool

  function Total(size: Size, entries: seq<Entry>): nat {
    if entries == [] then 0 else size(entries[0]) + Total(size, entries[1..])
  }

  // No suffix that starts before k is within the limit.
  ghost predicate Overfull(size: Size, limit: int, entries: seq<Entry>, k: int) {
    forall j :: 0 <= j < k <= |entries| ==> Total(size, entries[j..]) > limit
  }

  // entries[k..] is the longest suffix within the limit, or the last entry if even that
  // one is too large.
  ghost predicate IsLongestFit(size: Size, limit: int, entries: seq<Entry>, k: int) {
    && 0 <= k <= |entries| && (entries != [] ==> k < |entries|)
    && (Total(size, entries[k..]) <= limit || k >= |entries| - 1)
    && Overfull(size, limit, entries, k)
  }

  ghost predicate SizesMatch(size: Size, events: seq<Entry>, sizes: seq<nat>) {
    |sizes| == |events| && forall i :: 0 <= i < |events| ==> sizes[i] == size(events[i])
  }

  lemma TotalOneMore(size: Size, entries: seq<Entry>, entry: Entry)
    ensures Total(size, entries + [entry]) == Total(size, entries) + size(entry)
  {
    if entries != [] {
      assert (entries + [entry])[1..] == entries[1..] + [entry];
    }
  }

  lemma LongestFitIsUnique(size: Size, limit: int, entries: seq<Entry>, k: int, k': int)
    requires IsLongestFit(size, limit, entries, k) && IsLongestFit(size, limit, entries, k')
    ensures k == k'
  {
  }

  lemma {:induction false} ShorterIsSmaller(size: Size, entries: seq<Entry>, j: nat, k: nat)
    requires j <= k <= |entries|
    ensures Total(size, entries[k..]) <= Total(size, entries[j..])
    decreases k - j
  {
    if j < k {
      ShorterIsSmaller(size, entries, j + 1, k);
      assert entries[j..][1..] == entries[j + 1..];
    }
  }

  // A suffix that did not fit does not fit after one more event either.
  lemma OverflowPersists(size: Size, limit: int, entries: seq<Entry>, entry: Entry, k: int)
    requires 0 <= k <= |entries| && Overfull(size, limit, entries, k)
    ensures Overfull(size, limit, entries + [entry], k)
  {
    hide Total;
    forall j | 0 <= j < k ensures Total(size, (entries + [entry])[j..]) > limit {
      assert (entries + [entry])[j..] == entries[j..] + [entry];
      TotalOneMore(size, entries[j..], entry);
    }
  }

  lemma DropFirst(size: Size, limit: int, events: seq<Entry>, sizes: seq<nat>, history: seq<Entry>, k: int)
    requires 0 <= k < |history| && events == history[k..] && SizesMatch(size, events, sizes)
    requires Overfull(size, limit, history, k) && Total(size, events) > limit
    ensures events[1..] == history[k + 1..] && SizesMatch(size, events[1..], sizes[1..])
    ensures Total(size, events) == sizes[0] + Total(size, events[1..])
    ensures Overfull(size, limit, history, k + 1)
  {
  }

  datatype Summary = Summary(status: Status, exitCode: Option<int>, finishedAt: Option<int>)

  // Why a listener gets no more events: it only asked for a replay or came too late, it
  // or the manager gave up, it gave up inside its callback, or the session finished.
  datatype FeedStatus = Replayed | Following | Left | Quit | Finished

  // What a listener was called with.  It attached with a cursor when `joined` events had
  // been emitted, of which `dropped` were no longer retained, and has seen events up to
  // the history index `until`.
  datatype Feed = Feed(
    received: seq<Entry>, cursor: int, follow: bool, final: bool, dropped: nat, joined: nat, until: nat,
    status: FeedStatus)
  {
    // The first retained event after the cursor.
    function From(): nat {
      if cursor < dropped then dropped else if cursor < joined then cursor else joined
    }
  }

  predicate IsExit(entry: Entry) {
    entry.event.Exit?
  }

  function Exits(history: seq<Entry>): nat {
    if history == [] then 0
    else Exits(history[..|history| - 1]) + if IsExit(history[|history| - 1]) then 1 else 0
  }

  lemma ExitsOneMore(history: seq<Entry>, entry: Entry)
    ensures Exits(history + [entry]) == Exits(history) + if IsExit(entry) then 1 else 0
  {
    assert (history + [entry])[..|history|] == history;
  }

  lemma NothingEmitted(size: Size, limit: int, quits: Quits)
    ensures Total(size, []) == 0 && IsLongestFit(size, limit, [], 0) && SizesMatch(size, [], []) && Exits([]) == 0
    ensures Delivered(size, limit, quits, [], map[], {})
  {
  }

  // The subscribers are the following listeners.
  ghost predicate Delivered(
    size: Size, limit: int, quits: Quits, history: seq<Entry>, feeds: map<nat, Feed>, subscribers: set<nat>)
  {
    && (forall id :: id in subscribers <==> id in feeds && feeds[id].status.Following?)
    && (forall id :: id in feeds ==> PartOf(size, limit, feeds[id], history))
    && (forall id :: id in feeds ==> QuitsInTime(quits, id, feeds[id], history))
  }

  // It quits at the first event, after it attached, for which its callback unsubscribes.
  ghost predicate QuitsInTime(quits: Quits, id: nat, feed: Feed, history: seq<Entry>) {
    && feed.until <= |history|
    && (feed.status.Quit? ==> feed.joined < feed.until && quits(id, history[feed.until - 1]))
    && forall i :: feed.joined <= i < feed.until && quits(id, history[i]) ==> feed.status.Quit? && i == feed.until - 1
  }

  // A listener got, once and in order, every event from the first retained one after its
  // cursor: up to the one it attached after if it does not follow, up to now while it
  // follows, and up to the exit event if it followed until the session finished.
  ghost predicate PartOf(size: Size, limit: int, feed: Feed, history: seq<Entry>) {
    && feed.dropped <= feed.joined <= feed.until <= |history|
    && IsLongestFit(size, limit, history[..feed.joined], feed.dropped)
    && feed.received == history[feed.From()..feed.until]
    && (feed.status.Replayed? <==> !feed.follow || feed.final)
    && (feed.status.Replayed? ==> feed.until == feed.joined)
    && (feed.status.Following? ==> feed.until == |history|)
    && (feed.status.Finished? ==> feed.until > 0 && IsExit(history[feed.until - 1]))
  }

  // No listener is forgotten or called again with what it already got.
  ghost predicate Grow(before: map<nat, Feed>, after: map<nat, Feed>) {
    && before.Keys == after.Keys
    && forall id :: id in before ==> Continues(before[id], after[id])
  }

  ghost predicate Continues(before: Feed, after: Feed) {
    && after == before.(received := after.received, until := after.until, status := after.status)
    && before.received <= after.received
    && (before.status.Following? ==> after.status.Following? || after.status.Quit? || after.status.Finished?)
    && (!before.status.Following? ==> after == before)
  }

  lemma GrowIsAPreorder(a: map<nat, Feed>, b: map<nat, Feed>, c: map<nat, Feed>)
    ensures Grow(a, a)
    ensures Grow(a, b) && Grow(b, c) ==> Grow(a, c)
  {
  }

  function Called(feed: Feed, entry: Entry, quit: bool): Feed {
    if feed.status.Following? then
      feed.(received := feed.received + [entry], until := feed.until + 1, status := if quit then Quit else Following)
    else feed
  }

  lemma FeedGrows(size: Size, limit: int, feed: Feed, history: seq<Entry>, entry: Entry, quit: bool)
    requires PartOf(size, limit, feed, history)
    ensures PartOf(size, limit, Called(feed, entry, quit), history + [entry])
  {
    hide IsLongestFit;
    var longer := history + [entry];
    assert longer[..feed.joined] == history[..feed.joined];
    assert longer[feed.From()..feed.until] == history[feed.From()..feed.until];
    if feed.status.Following? {
      assert longer[feed.From()..] == history[feed.From()..] + [entry];
    }
  }

  lemma StillInTime(quits: Quits, id: nat, feed: Feed, history: seq<Entry>, entry: Entry)
    requires QuitsInTime(quits, id, feed, history) && (feed.status.Following? ==> feed.until == |history|)
    requires feed.joined <= feed.until
    ensures QuitsInTime(quits, id, Called(feed, entry, quits(id, entry)), history + [entry])
  {
  }

  lemma CalledOnce(size: Size, limit: int, quits: Quits, id: nat, feed: Feed, history: seq<Entry>, entry: Entry)
    requires PartOf(size, limit, feed, history) && QuitsInTime(quits, id, feed, history)
    ensures PartOf(size, limit, Called(feed, entry, quits(id, entry)), history + [entry])
    ensures QuitsInTime(quits, id, Called(feed, entry, quits(id, entry)), history + [entry])
  {
    hide IsLongestFit, QuitsInTime, Called;
    FeedGrows(size, limit, feed, history, entry, quits(id, entry));
    StillInTime(quits, id, feed, history, entry);
  }

  lemma StillPart(
    size: Size, limit: int, quits: Quits, id: nat, feed: Feed, history: seq<Entry>, finished: bool)
    requires PartOf(size, limit, feed, history) && QuitsInTime(quits, id, feed, history)
    requires finished ==> history != [] && IsExit(history[|history| - 1])
    ensures PartOf(size, limit, Detached(feed, finished), history) && !Detached(feed, finished).status.Following?
    ensures QuitsInTime(quits, id, Detached(feed, finished), history)
  {
    hide IsLongestFit;
  }

  lemma DetachOne(
    size: Size, limit: int, quits: Quits, history: seq<Entry>, feeds: map<nat, Feed>, subscribers: set<nat>, id: nat)
    requires Delivered(size, limit, quits, history, feeds, subscribers) && id in subscribers
    ensures id in feeds
    ensures Delivered(size, limit, quits, history, feeds[id := Detached(feeds[id], false)], subscribers - {id})
  {
    hide PartOf, QuitsInTime, Detached;
    StillPart(size, limit, quits, id, feeds[id], history, false);
  }

  lemma DetachAll(
    size: Size, limit: int, quits: Quits, history: seq<Entry>, feeds: map<nat, Feed>, subscribers: set<nat>,
    finished: bool)
    requires Delivered(size, limit, quits, history, feeds, subscribers)
    requires finished ==> history != [] && IsExit(history[|history| - 1])
    ensures Delivered(size, limit, quits, history, map id | id in feeds :: Detached(feeds[id], finished), {})
  {
    hide PartOf, QuitsInTime, Detached;
    forall id | id in feeds
      ensures PartOf(size, limit, Detached(feeds[id], finished), history)
      ensures QuitsInTime(quits, id, Detached(feeds[id], finished), history)
      ensures !Detached(feeds[id], finished).status.Following?
    {
      StillPart(size, limit, quits, id, feeds[id], history, finished);
    }
  }

  lemma AttachOne(
    size: Size, limit: int, quits: Quits, history: seq<Entry>, feeds: map<nat, Feed>, subscribers: set<nat>,
    id: nat, feed: Feed)
    requires Delivered(size, limit, quits, history, feeds, subscribers) && id !in feeds
    requires PartOf(size, limit, feed, history) && QuitsInTime(quits, id, feed, history)
    ensures Delivered(
      size, limit, quits, history, feeds[id := feed],
      if feed.status.Following? then subscribers + {id} else subscribers)
  {
    hide PartOf, QuitsInTime;
  }

  // A listener that attaches now has got what is retained after its cursor.
  lemma NewFeed(size: Size, limit: int, quits: Quits, id: nat, history: seq<Entry>, feed: Feed)
    requires IsLongestFit(size, limit, history, feed.dropped) && feed.joined == feed.until == |history|
    requires feed.received == history[feed.From()..]
    requires feed.status == if feed.follow && !feed.final then Following else Replayed
    ensures PartOf(size, limit, feed, history) && QuitsInTime(quits, id, feed, history)
  {
    hide Total, Overfull;
    assert history[..|history|] == history;
  }

  lemma DetachingGrows(before: map<nat, Feed>, after: map<nat, Feed>)
    requires after.Keys == before.Keys && forall id :: id in after ==> after[id] == Detached(before[id], true)
    ensures Grow(before, after)
  {
  }

  // A listener that does not follow any more is not changed by leaving.
  lemma DetachedAlready(
    size: Size, limit: int, quits: Quits, history: seq<Entry>, feeds: map<nat, Feed>, subscribers: set<nat>, id: nat)
    requires Delivered(size, limit, quits, history, feeds, subscribers)
    ensures id in subscribers ==> id in feeds
    ensures id in feeds && id !in subscribers ==> feeds[id := Detached(feeds[id], false)] == feeds
  {
  }

  // The listener is detached: the session finished with the last event, or it was left.
  function Detached(feed: Feed, finished: bool): Feed {
    if feed.status.Following? then feed.(status := if finished then Finished else Left) else feed
  }

  // ---- what each step is to do ----

  datatype Step =
    | OnOutput(data: string) | OnReasoning(summary: string)
    | OnError(message: string) | OnClose(exitCode: Option<int>, remainder: string)
    | OnTimer(idle: bool) | OnTerminate | OnInteract(resize: bool) | OnManagerClose
    | OnSubscribe(afterCursor: int, follow: bool) | OnUnsubscribe(id: nat)

  // The observable state of a session: its summary, everything it emitted, everyone who
  // ever listened, and its timers.
  datatype State = State(
    summary: Summary, history: seq<Entry>, feeds: map<nat, Feed>, listeners: nat, idleTimer: bool, lifetimeTimer: bool)

  ghost predicate IsOpen(status: Status) {
    status == Starting || status == Running
  }

  ghost function AllCalled(quits: Quits, feeds: map<nat, Feed>, entry: Entry): map<nat, Feed> {
    map id | id in feeds :: Called(feeds[id], entry, quits(id, entry))
  }

  ghost function AllDetached(feeds: map<nat, Feed>, finished: bool): map<nat, Feed> {
    map id | id in feeds :: Detached(feeds[id], finished)
  }

  // An event gets the next cursor, is kept and is passed to every listener that follows.
  ghost function Emitting(quits: Quits, s: State, event: Event): State {
    var entry := Entry(|s.history| + 1, event);
    s.(
      summary := (if event.StatusEvent? then s.summary.(status := event.status) else s.summary),
      history := s.history + [entry], feeds := AllCalled(quits, s.feeds, entry))
  }

  // The first finish settles the summary, stops the timers, tells the status and the exit,
  // and lets go of the listeners.
  ghost function Finishing(
    quits: Quits, s: State, status: Status, exitCode: Option<int>, message: Option<string>, now: int): State
  {
    if s.summary.finishedAt.Some? then s
    else
      var settled := s.(summary := Summary(status, exitCode, Some(now)), idleTimer := false, lifetimeTimer := false);
      var told := if message.Some? then Emitting(quits, settled, StatusEvent(status, message.value)) else settled;
      var over := Emitting(quits, told, Exit(exitCode));
      over.(feeds := AllDetached(over.feeds, true))
  }

  ghost function Telling(quits: Quits, s: State, data: string): State {
    if data == "" then s else Emitting(quits, s, Output(data))
  }

  const IDLE_MESSAGE := "idle for too long"
  const LIFETIME_MESSAGE := "reached its maximum lifetime"

  // A new listener gets what is retained after its cursor, and follows an open session.
  ghost function Joining(size: Size, limit: int, s: State, afterCursor: int, follow: bool): State {
    var dropped := Dropped(size, limit, s.history);
    var follows := follow && IsOpen(s.summary.status);
    var n := |s.history|;
    var from := if afterCursor < dropped then dropped else if afterCursor < n then afterCursor else n;
    s.(
      feeds := s.feeds[s.listeners := Feed(
        s.history[from..], afterCursor, follow, !IsOpen(s.summary.status), dropped, n, n,
        if follows then Following else Replayed)],
      listeners := s.listeners + 1)
  }

  // How many events of a history have been dropped for the byte budget.
  ghost function Dropped(size: Size, limit: int, history: seq<Entry>): (k: nat)
    ensures k <= |history|
  {
    if exists k: nat :: IsLongestFit(size, limit, history, k) then
      var k: nat :| IsLongestFit(size, limit, history, k);
      k
    else 0
  }

  lemma DroppedIs(size: Size, limit: int, history: seq<Entry>, k: nat)
    requires IsLongestFit(size, limit, history, k)
    ensures Dropped(size, limit, history) == k
  {
    hide IsLongestFit;
    var d := Dropped(size, limit, history);
    LongestFitIsUnique(size, limit, history, d, k);
  }

  lemma Joins(size: Size, limit: int, s: State, afterCursor: int, follow: bool, k: nat)
    requires IsLongestFit(size, limit, s.history, k) && k <= |s.history|
    ensures
      var n, final := |s.history|, s.summary.status.Final();
      var from := if afterCursor < k then k else if afterCursor < n then afterCursor else n;
      var status := if follow && !final then Following else Replayed;
      var feed := Feed(s.history[from..], afterCursor, follow, final, k, n, n, status);
      Joining(size, limit, s, afterCursor, follow) ==
        s.(feeds := s.feeds[s.listeners := feed], listeners := s.listeners + 1)
  {
    hide IsLongestFit, Dropped;
    DroppedIs(size, limit, s.history, k);
  }

  ghost function Stopping(s: State, status: Status): State {
    if IsOpen(s.summary.status) then s.(summary := s.summary.(status := status)) else s
  }

  ghost function After(size: Size, limit: int, quits: Quits, s: State, step: Step, now: int): State {
    match step
    case OnOutput(data) => Telling(quits, s.(idleTimer := true), data)
    case OnReasoning(summary) => Emitting(quits, s, Reasoning(summary))
    case OnError(message) => Finishing(quits, s, Failed, None, Some(message), now)
    case OnClose(code, remainder) =>
      var told := Telling(quits, s, remainder);
      var stopped := s.summary.status == Terminated || s.summary.status == TimedOut;
      var status := if stopped then s.summary.status else if code == Some(0) then Completed else Failed;
      Finishing(quits, told, status, code, None, now)
    case OnTimer(idle) =>
      if !(if idle then s.idleTimer else s.lifetimeTimer) then s
      else
        var fired := if idle then s.(idleTimer := false) else s.(lifetimeTimer := false);
        if IsOpen(s.summary.status) then
          Emitting(quits, fired, StatusEvent(TimedOut, if idle then IDLE_MESSAGE else LIFETIME_MESSAGE))
        else fired
    case OnTerminate =>
      if IsOpen(s.summary.status) then Stopping(s, Terminated).(idleTimer := true) else s
    case OnInteract(resize) => if resize || IsOpen(s.summary.status) then s.(idleTimer := true) else s
    case OnManagerClose =>
      Stopping(s, Terminated).(idleTimer := false, lifetimeTimer := false, feeds := AllDetached(s.feeds, false))
    case OnSubscribe(afterCursor, follow) => Joining(size, limit, s, afterCursor, follow)
    case OnUnsubscribe(id) => if id in s.feeds then s.(feeds := s.feeds[id := Detached(s.feeds[id], false)]) else s
  }

  class SessionRecord {
    const size: Size
    const maxTranscriptBytes: int
    const quits: Quits
    var summary: Summary
    var events: seq<Entry>
    var eventSizes: seq<nat>
    var transcriptBytes: int
    var idleTimer: bool
    var lifetimeTimer: bool
    var subscribers: set<nat>
    var nextSubscriber: nat
    // Histories: every event ever emitted, and every listener ever attached.
    var history: seq<Entry>
    var feeds: map<nat, Feed>

    // The transcript is the longest suffix of the history that fits the budget.
    ghost predicate Ring()
      reads `events, `eventSizes, `transcriptBytes, `history
    {
      && |events| <= |history| && (history != [] ==> events != []) && events == history[|history| - |events|..]
      && IsLongestFit(size, maxTranscriptBytes, history, |history| - |events|)
      && SizesMatch(size, events, eventSizes)
      && transcriptBytes == Total(size, events)
    }

    // Cursors number the history without gaps and are never reused.
    ghost predicate Cursors()
      reads `history
    {
      forall i :: 0 <= i < |history| ==> history[i].cursor == i + 1
    }

    // Each listener got a contiguous part of the history, exactly once and in order; a
    // subscribed one got everything up to now.
    ghost predicate Feeds()
      reads `history, `feeds, `subscribers, `nextSubscriber
    {
      Delivered(size, maxTranscriptBytes, quits, history, feeds, subscribers) && forall id :: id in feeds ==>
        id < nextSubscriber
    }

    // One exit event, at the finish; a finished session is final.
    ghost predicate Lifecycle()
      reads `summary, `history, `subscribers
    {
      && Exits(history) == (if summary.finishedAt.Some? then 1 else 0)
      && (summary.finishedAt.Some? ==> summary.status.Final() && subscribers == {})
      && (summary.finishedAt.None? ==> summary.exitCode.None? && (summary.status.Final() ==> summary.status.Stopped()))
    }

    ghost predicate Valid()
      reads this
    {
      Ring() && Cursors() && Feeds() && Lifecycle()
    }

    ghost function Now(): State
      reads this
    {
      State(summary, history, feeds, nextSubscriber, idleTimer, lifetimeTimer)
    }

    // The record that createSession registers.
    constructor (size: Size, maxTranscriptBytes: int, quits: Quits)
      ensures Registered() && Now() == State(Summary(Starting, None, None), [], map[], 0, true, true)
      ensures this.size == size && this.maxTranscriptBytes == maxTranscriptBytes && this.quits == quits
    {
      this.size, this.maxTranscriptBytes, this.quits := size, maxTranscriptBytes, quits;
      summary, events, eventSizes, transcriptBytes := Summary(Starting, None, None), [], [], 0;
      idleTimer, lifetimeTimer, subscribers, nextSubscriber, history, feeds := true, true, {}, 0, [], map[];
    }

    ghost predicate Registered()
      reads this
    {
      && summary == Summary(Starting, None, None) && events == [] && eventSizes == [] && transcriptBytes == 0
      && subscribers == {} && history == [] && feeds == map[]
    }

    lemma RegisteredIsValid()
      requires Registered()
      ensures Valid()
    {
      hide Ring, Feeds, Exits;
      NothingEmitted(size, maxTranscriptBytes, quits);
      RegisteredRing();
      RegisteredFeeds();
    }

    lemma RegisteredRing()
      requires Registered()
      ensures Ring()
    {
      hide Overfull, IsLongestFit, Total, SizesMatch;
      NothingEmitted(size, maxTranscriptBytes, quits);
    }

    lemma RegisteredFeeds()
      requires Registered()
      ensures Feeds()
    {
    }

    // Its first event.
    method Start()
      requires Registered()
      modifies `summary, `events, `eventSizes, `transcriptBytes, `history, `feeds, `subscribers
      ensures Valid() && summary == Summary(Running, None, None) && summary.finishedAt.None?
      ensures history == [Entry(1, StatusEvent(Running, "started"))] && feeds.Keys == {}
      ensures Now() == old(Emitting(quits, Now(), StatusEvent(Running, "started")))
    {
      hide Ring, Cursors, Feeds, Exits;
      RegisteredIsValid();
      EmitEvent(StatusEvent(Running, "started"));
    }

    method EmitEvent(event: Event)
      requires Ring() && Cursors() && Feeds()
      modifies `summary, `events, `eventSizes, `transcriptBytes, `history, `feeds, `subscribers
      ensures Ring() && Cursors() && Feeds()
      ensures history == old(history) + [Entry(|old(history)| + 1, event)]
      ensures Exits(history) == Exits(old(history)) + if event.Exit? then 1 else 0
      ensures summary == if event.StatusEvent? then old(summary).(status := event.status) else old(summary)
      ensures Grow(old(feeds), feeds) && subscribers <= old(subscribers)
      ensures Now() == old(Emitting(quits, Now(), event))
    {
      hide Ring, Cursors, Delivered, Exits, Called;
      var nextCursor := NextCursor();
      var fullEvent := Entry(nextCursor, event);
      if event.StatusEvent? {
        summary := summary.(status := event.status);
      }
      Store(fullEvent);
      ExitsOneMore(old(history), fullEvent);
      Deliver(fullEvent, old(history));
      assert feeds == AllCalled(quits, old(feeds), fullEvent);
    }

    method NextCursor() returns (cursor: nat)
      requires Ring() && Cursors()
      ensures cursor == |history| + 1
    {
      hide IsLongestFit, Total, SizesMatch;
      cursor := if |events| > 0 then events[|events| - 1].cursor + 1 else 1;
    }

    method Store(entry: Entry)
      requires Ring() && Cursors() && entry.cursor == |history| + 1
      modifies `events, `eventSizes, `transcriptBytes, `history
      ensures Ring() && Cursors() && history == old(history) + [entry]
    {
      hide Total, Overfull;
      OverflowPersists(size, maxTranscriptBytes, history, entry, |history| - |events|);
      TotalOneMore(size, events, entry);
      ghost var k := |history| - |events|;
      history := history + [entry];
      events := events + [entry];
      eventSizes := eventSizes + [size(entry)];
      transcriptBytes := transcriptBytes + size(entry);
      while transcriptBytes > maxTranscriptBytes && |events| > 1
        invariant history == old(history) + [entry]
        invariant 1 <= |events| <= |history| && k == |history| - |events| && events == history[k..]
        invariant SizesMatch(size, events, eventSizes)
        invariant transcriptBytes == Total(size, events)
        invariant Overfull(size, maxTranscriptBytes, history, k)
      {
        DropFirst(size, maxTranscriptBytes, events, eventSizes, history, k);
        transcriptBytes := transcriptBytes - eventSizes[0];
        eventSizes := eventSizes[1..];
        events := events[1..];
        k := k + 1;
      }
    }

    // Every subscriber's listener is called with the new event, and may unsubscribe then.
    method Deliver(entry: Entry, ghost before: seq<Entry>)
      requires history == before + [entry] && Delivered(size, maxTranscriptBytes, quits, before, feeds, subscribers)
      requires forall id :: id in feeds ==> id < nextSubscriber
      modifies `feeds, `subscribers
      ensures Feeds() && Grow(old(feeds), feeds)
      ensures forall id :: id in feeds ==> feeds[id] == Called(old(feeds)[id], entry, quits(id, entry))
      ensures subscribers <= old(subscribers)
    {
      hide PartOf, QuitsInTime;
      feeds := map id | id in feeds :: Called(feeds[id], entry, quits(id, entry));
      subscribers := set id | id in subscribers && !quits(id, entry);
      forall id | id in feeds
        ensures PartOf(size, maxTranscriptBytes, feeds[id], history) && QuitsInTime(quits, id, feeds[id], history)
      {
        CalledOnce(size, maxTranscriptBytes, quits, id, old(feeds)[id], before, entry);
      }
    }

    // The history index of the first retained event after a cursor.
    function FirstAfter(afterCursor: int): (i: nat)
      reads `events, `history
      requires |events| <= |history|
      ensures i <= |history|
    {
      if afterCursor < |history| - |events| then |history| - |events|
      else if afterCursor < |history| then afterCursor else |history|
    }

    // getTranscript: the retained events after a cursor.
    method GetTranscript(afterCursor: int) returns (entries: seq<Entry>)
      requires Ring() && Cursors()
      ensures entries == history[FirstAfter(afterCursor)..]
    {
      entries := [];
      for i := 0 to |events|
        invariant entries ==
          var from := if afterCursor < |history| - |events| then |history| - |events| else afterCursor;
          if from < |history| - |events| + i then history[from..|history| - |events| + i] else []
      {
        if events[i].cursor > afterCursor {
          entries := entries + [events[i]];
        }
      }
    }

    // subscribe: replay the retained events after the cursor; follow only a session that
    // is not final.
    method Subscribe(afterCursor: int, follow: bool) returns (id: nat)
      requires Valid()
      modifies `subscribers, `feeds, `nextSubscriber
      ensures Valid() && id !in old(feeds) && id in feeds && feeds == old(feeds)[id := feeds[id]]
      ensures subscribers == old(subscribers) + if follow && !summary.status.Final() then {id} else {}
      ensures Now() == old(Joining(size, maxTranscriptBytes, Now(), afterCursor, follow))
      ensures feeds[id] == Feed(
        history[FirstAfter(afterCursor)..], afterCursor, follow, summary.status.Final(), |history| - |events|,
        |history|, |history|, if follow && !summary.status.Final() then Following else Replayed)
    {
      hide Exits, IsLongestFit, PartOf, QuitsInTime, Joining, Feeds, SizesMatch, Total;
      assert summary.finishedAt.Some? ==> summary.status.Final();
      hide Lifecycle;
      ghost var s := Now();
      Joins(size, maxTranscriptBytes, s, afterCursor, follow, |history| - |events|);
      var replayed := GetTranscript(afterCursor);
      var final := summary.status.Final();
      var feed := Feed(
        replayed, afterCursor, follow, final, |history| - |events|, |history|, |history|,
        if follow && !final then Following else Replayed);
      NewFeed(size, maxTranscriptBytes, quits, nextSubscriber, history, feed);
      id := Attach(feed);
    }

    // makeId and subscribers.set, if the listener follows.
    method Attach(feed: Feed) returns (id: nat)
      requires Valid() && PartOf(size, maxTranscriptBytes, feed, history)
      requires QuitsInTime(quits, nextSubscriber, feed, history)
      requires feed.status.Following? ==> summary.finishedAt.None?
      modifies `subscribers, `feeds, `nextSubscriber
      ensures Valid() && id == old(nextSubscriber) && nextSubscriber == id + 1
      ensures id !in old(feeds) && feeds == old(feeds)[id := feed]
      ensures subscribers == old(subscribers) + if feed.status.Following? then {id} else {}
    {
      hide Exits, Delivered, PartOf, QuitsInTime, Ring;
      id := nextSubscriber;
      nextSubscriber := nextSubscriber + 1;
      AttachOne(size, maxTranscriptBytes, quits, history, feeds, subscribers, id, feed);
      feeds := feeds[id := feed];
      if feed.status.Following? {
        subscribers := subscribers + {id};
      }
    }

    method Unsubscribe(id: nat)
      requires Valid()
      modifies `subscribers, `feeds
      ensures Valid() && subscribers == old(subscribers) - {id}
      ensures feeds == if id in old(subscribers) then old(feeds)[id := Detached(old(feeds)[id], false)] else old(feeds)
      ensures Now() == old(After(size, maxTranscriptBytes, quits, Now(), OnUnsubscribe(id), 0))
    {
      hide Ring, Cursors, Delivered, Exits, Detached;
      DetachedAlready(size, maxTranscriptBytes, quits, history, feeds, subscribers, id);
      if id in subscribers {
        DetachOne(size, maxTranscriptBytes, quits, history, feeds, subscribers, id);
        feeds := feeds[id := Detached(feeds[id], false)];
        subscribers := subscribers - {id};
      }
      assert id !in old(subscribers) ==> old(subscribers) - {id} == old(subscribers);
    }

    // ---- life cycle ----

    // An event that is no exit leaves the life cycle as it is.
    method Emit(event: Event)
      requires Valid() && !event.Exit? && !event.StatusEvent?
      modifies `summary, `events, `eventSizes, `transcriptBytes, `history, `feeds, `subscribers
      ensures Valid() && summary == old(summary) && Grow(old(feeds), feeds)
      ensures history == old(history) + [Entry(|old(history)| + 1, event)]
      ensures Now() == old(Emitting(quits, Now(), event))
    {
      hide Exits, Ring, Cursors, Feeds;
      EmitEvent(event);
    }

    method MarkActivity()
      modifies `idleTimer
      ensures idleTimer
    {
      idleTimer := true;
    }

    method ClearSubscribers(finished: bool)
      requires Feeds() && (finished ==> history != [] && IsExit(history[|history| - 1]))
      modifies `subscribers, `feeds
      ensures Feeds() && subscribers == {}
      ensures feeds.Keys == old(feeds).Keys && forall id :: id in feeds ==>
        feeds[id] == Detached(old(feeds)[id], finished)
    {
      hide Delivered, Detached;
      DetachAll(size, maxTranscriptBytes, quits, history, feeds, subscribers, finished);
      feeds := map id | id in feeds :: Detached(feeds[id], finished);
      subscribers := {};
    }

    // A listener that quits at the status event does not get the exit event.
    method FinalizeRecord(status: Status, exitCode: Option<int>, message: Option<string>, now: int)
      requires Valid() && status.Final()
      modifies this
      ensures Valid() && Grow(old(feeds), feeds)
      ensures old(summary).finishedAt.Some? ==> summary == old(summary) && history == old(history)
      ensures old(summary).finishedAt.None? ==>
        && summary == Summary(status, exitCode, Some(now)) && subscribers == {} && !idleTimer && !lifetimeTimer
        && history == old(history) + LastEvents(|old(history)|, status, exitCode, message)
      ensures Now() == old(Finishing(quits, Now(), status, exitCode, message, now))
    {
      hide Exits, Ring, Cursors, Feeds, Grow, Detached, Emitting;
      GrowIsAPreorder(feeds, feeds, feeds);
      if summary.status.Final() && summary.finishedAt.Some? { return; }
      idleTimer, lifetimeTimer := false, false;
      summary := Summary(status, exitCode, Some(now));
      if message.Some? {
        EmitEvent(StatusEvent(status, message.value));
      }
      ghost var during := feeds;
      EmitExit(exitCode);
      GrowIsAPreorder(old(feeds), during, feeds);
    }

    method EmitExit(exitCode: Option<int>)
      requires Ring() && Cursors() && Feeds()
      modifies `summary, `events, `eventSizes, `transcriptBytes, `history, `feeds, `subscribers
      ensures Ring() && Cursors() && Feeds() && subscribers == {}
      ensures history == old(history) + [Entry(|old(history)| + 1, Exit(exitCode))]
      ensures Exits(history) == Exits(old(history)) + 1
      ensures summary == old(summary) && Grow(old(feeds), feeds)
      ensures
        var over := old(Emitting(quits, Now(), Exit(exitCode)));
        Now() == over.(feeds := AllDetached(over.feeds, true))
    {
      hide Exits, Ring, Cursors, Feeds, Grow, Detached, Emitting;
      EmitEvent(Exit(exitCode));
      ghost var during := feeds;
      ClearSubscribers(true);
      assert feeds == AllDetached(during, true);
      DetachingGrows(during, feeds);
      GrowIsAPreorder(old(feeds), during, feeds);
    }

    // child "error"
    method ChildError(message: string, now: int)
      requires Valid()
      modifies this
      ensures Valid() && Grow(old(feeds), feeds)
      ensures summary == if old(summary).finishedAt.Some? then old(summary) else Summary(Failed, None, Some(now))
      ensures history == old(history) +
        if old(summary).finishedAt.Some? then [] else LastEvents(|old(history)|, Failed, None, Some(message))
      ensures Now() == old(After(size, maxTranscriptBytes, quits, Now(), OnError(message), now))
    {
      hide Ring, Cursors, Feeds, Lifecycle, Exits, Grow, Finishing;
      FinalizeRecord(Failed, None, Some(message), now);
    }

    // child "close"; the reasoning filter may hold back some output until then
    method ChildClose(exitCode: Option<int>, remainder: string, now: int)
      requires Valid()
      modifies this
      ensures Valid() && Grow(old(feeds), feeds)
      ensures summary == if old(summary).finishedAt.Some? then old(summary)
        else
          var status := old(summary).status;
          var stopped := status == Terminated || status == TimedOut;
          Summary(
            if stopped then status else if exitCode == Some(0) then Completed else Failed, exitCode, Some(now))
      ensures
        var flushed := old(history) + if remainder == "" then [] else [Entry(|old(history)| + 1, Output(remainder))];
        var status := ResolveExitStatus(old(summary).status, exitCode);
        history == flushed + if old(summary).finishedAt.Some? then [] else LastEvents(|flushed|, status, exitCode, None)
      ensures Now() == old(After(size, maxTranscriptBytes, quits, Now(), OnClose(exitCode, remainder), now))
    {
      hide Ring, Cursors, Feeds, Exits, Grow;
      GrowIsAPreorder(feeds, feeds, feeds);
      if remainder != "" {
        Emit(Output(remainder));
      }
      ghost var during := feeds;
      FinalizeRecord(ResolveExitStatus(summary.status, exitCode), exitCode, None, now);
      GrowIsAPreorder(old(feeds), during, feeds);
    }

    // stdout or stderr data
    method ChildOutput(data: string)
      requires Valid()
      modifies this
      ensures Valid() && summary == old(summary) && Grow(old(feeds), feeds) && idleTimer
      ensures history == old(history) + if data == "" then [] else [Entry(|old(history)| + 1, Output(data))]
      ensures Now() == old(Telling(quits, Now().(idleTimer := true), data))
    {
      hide Ring, Cursors, Feeds, Exits, Grow;
      GrowIsAPreorder(feeds, feeds, feeds);
      MarkActivity();
      if data != "" {
        Emit(Output(data));
      }
    }

    // The idle or the lifetime timer fires.
    method TimerFires(idle: bool)
      requires Valid() && (if idle then idleTimer else lifetimeTimer)
      modifies this
      ensures Valid() && Grow(old(feeds), feeds)
      ensures summary == if old(summary).status.Final() then old(summary) else old(summary).(status := TimedOut)
      ensures old(summary).status.Final() ==> history == old(history)
      ensures !old(summary).status.Final() ==>
        && |history| == |old(history)| + 1 && old(history) <= history
        && history[|old(history)|].event.StatusEvent? && history[|old(history)|].event.status == TimedOut
      ensures idleTimer == (old(idleTimer) && !idle) && lifetimeTimer == (old(lifetimeTimer) && idle)
      ensures Now() == old(After(size, maxTranscriptBytes, quits, Now(), OnTimer(idle), 0))
    {
      hide Exits, Ring, Cursors, Feeds;
      if idle { idleTimer := false; } else { lifetimeTimer := false; }
      if !summary.status.Final() {
        summary := summary.(status := TimedOut);
        EmitEvent(StatusEvent(TimedOut, if idle then IDLE_MESSAGE else LIFETIME_MESSAGE));
      }
    }

    method Terminate()
      requires Valid()
      modifies `summary, `idleTimer
      ensures Valid()
      ensures summary == if old(summary).status.Final() then old(summary) else old(summary).(status := Terminated)
      ensures Now() == old(After(size, maxTranscriptBytes, quits, Now(), OnTerminate, 0))
    {
      hide Exits, Ring, Cursors, Feeds;
      if !summary.status.Final() {
        summary := summary.(status := Terminated);
        MarkActivity();
      }
    }

    // writeInput, signalSession and resizeSession: only the first two refuse a final session
    method Interact(resize: bool) returns (accepted: bool)
      requires Valid()
      modifies `idleTimer
      ensures Valid() && (accepted <==> resize || !summary.status.Final()) && idleTimer == (old(idleTimer) || accepted)
      ensures Now() == old(After(size, maxTranscriptBytes, quits, Now(), OnInteract(resize), 0))
    {
      hide Ring, Cursors, Feeds, Lifecycle;
      accepted := resize || !summary.status.Final();
      if accepted {
        MarkActivity();
      }
    }

    // The manager's close().
    method Close()
      requires Valid()
      modifies `summary, `idleTimer, `lifetimeTimer, `subscribers, `feeds
      ensures Valid() && subscribers == {} && !idleTimer && !lifetimeTimer
      ensures feeds.Keys == old(feeds).Keys && forall id :: id in feeds ==> feeds[id] == Detached(old(feeds)[id], false)
      ensures summary == if old(summary).status.Final() then old(summary) else old(summary).(status := Terminated)
      ensures Now() == old(After(size, maxTranscriptBytes, quits, Now(), OnManagerClose, 0))
    {
      hide Exits, Ring, Cursors, Feeds, Detached;
      if !summary.status.Final() {
        summary := summary.(status := Terminated);
      }
      idleTimer, lifetimeTimer := false, false;
      ClearSubscribers(false);
      assert feeds == AllDetached(old(feeds), false);
    }
  }

  // The events that end a session.
  function LastEvents(n: nat, status: Status, exitCode: Option<int>, message: Option<string>): seq<Entry> {
    if message.Some? then [Entry(n + 1, StatusEvent(status, message.value)), Entry(n + 2, Exit(exitCode))]
    else [Entry(n + 1, Exit(exitCode))]
  }

  function ResolveExitStatus(current: Status, exitCode: Option<int>): Status {
    if current.Stopped() then current else if exitCode == Some(0) then Completed else Failed
  }

  // ---- whole runs ----

  // How a step changes the summary; only a timer may find itself disarmed.
  ghost predicate MayBecome(before: Summary, step: Step, after: Summary) {
    match step
    case OnError(_) =>
      if before.finishedAt.Some? then after == before
      else after.status == Failed && after.exitCode.None? && after.finishedAt.Some?
    case OnClose(code, _) =>
      if before.finishedAt.Some? then after == before
      else
        && after.exitCode == code && after.finishedAt.Some?
        && (before.status in {Terminated, TimedOut} ==> after.status == before.status)
        && (before.status !in {Terminated, TimedOut} ==> after.status == if code == Some(0) then Completed else Failed)
    case OnTimer(_) => after == before || (IsOpen(before.status) && after == before.(status := TimedOut))
    case OnTerminate => after == if IsOpen(before.status) then before.(status := Terminated) else before
    case OnManagerClose => after == if IsOpen(before.status) then before.(status := Terminated) else before
    case _ => after == before
  }

  // A listener is left only when it unsubscribes or the manager closes.
  ghost predicate LeavesOnlyBy(before: map<nat, Feed>, step: Step, after: map<nat, Feed>) {
    forall id :: id in after && after[id].status.Left? ==>
      (id in before && before[id].status.Left?) || step == OnUnsubscribe(id) || step.OnManagerClose?
  }

  method Perform(record: SessionRecord, step: Step, now: int)
    requires record.Valid()
    modifies record
    ensures record.Valid()
    ensures MayBecome(old(record.summary), step, record.summary)
    ensures record.summary.finishedAt.Some? ==> record.summary.status.Final()
    ensures step.OnError? || step.OnClose? ==> record.summary.finishedAt.Some?
    ensures LeavesOnlyBy(old(record.feeds), step, record.feeds)
    ensures record.Now() ==
      old(After(record.size, record.maxTranscriptBytes, record.quits, record.Now(), step, now))
  {
    hide SessionRecord.Ring, SessionRecord.Cursors, SessionRecord.Feeds, Exits, LastEvents;
    hide Emitting, Finishing, Joining, Telling;
    match step
    case OnOutput(data) => record.ChildOutput(data);
    case OnReasoning(summary) => record.Emit(Reasoning(summary));
    case OnError(message) => record.ChildError(message, now);
    case OnClose(exitCode, remainder) => record.ChildClose(exitCode, remainder, now);
    case OnTimer(idle) => if (if idle then record.idleTimer else record.lifetimeTimer) { record.TimerFires(idle); }
    case OnTerminate => record.Terminate();
    case OnInteract(resize) => var _ := record.Interact(resize);
    case OnManagerClose => record.Close();
    case OnSubscribe(afterCursor, follow) => var _ := record.Subscribe(afterCursor, follow);
    case OnUnsubscribe(id) => record.Unsubscribe(id);
  }

  ghost predicate Trace(summaries: seq<Summary>, steps: seq<Step>) {
    && |summaries| == |steps| + 1
    && (forall i :: 0 <= i < |steps| ==> MayBecome(summaries[i], steps[i], summaries[i + 1]))
    && (forall i :: 0 <= i < |summaries| && summaries[i].finishedAt.Some? ==> summaries[i].status.Final())
  }

  // What a session's observers have seen: every listener a contiguous part of the
  // history, the transcript its longest suffix within the budget.
  ghost predicate Observed(
    size: Size, limit: int, quits: Quits, history: seq<Entry>, transcript: seq<Entry>, feeds: map<nat, Feed>)
  {
    && (forall i :: 0 <= i < |history| ==> history[i].cursor == i + 1)
    && |transcript| <= |history| && transcript == history[|history| - |transcript|..]
    && IsLongestFit(size, limit, history, |history| - |transcript|)
    && (forall id :: id in feeds ==> PartOf(size, limit, feeds[id], history))
    && (forall id :: id in feeds ==> QuitsInTime(quits, id, feeds[id], history))
  }

  // The state after some steps, from the event that tells of the start.
  ghost function StateAfter(size: Size, limit: int, quits: Quits, steps: seq<Step>, now: seq<int>): State
    requires |now| == |steps|
  {
    if steps == [] then
      Emitting(quits, State(Summary(Starting, None, None), [], map[], 0, true, true), StatusEvent(Running, "started"))
    else
      var n := |steps| - 1;
      After(size, limit, quits, StateAfter(size, limit, quits, steps[..n], now[..n]), steps[n], now[n])
  }

  // Any sequence of callbacks and calls.
  method Run(size: Size, maxTranscriptBytes: int, quits: Quits, steps: seq<Step>, now: seq<int>)
    returns (summaries: seq<Summary>, history: seq<Entry>, transcript: seq<Entry>, feeds: map<nat, Feed>)
    requires |now| == |steps|
    ensures Trace(summaries, steps)
    ensures Observed(size, maxTranscriptBytes, quits, history, transcript, feeds)
    ensures Exits(history) == if summaries[|steps|].finishedAt.Some? then 1 else 0
    ensures LeftBy(feeds, steps)
    ensures
      var s := StateAfter(size, maxTranscriptBytes, quits, steps, now);
      s.summary == summaries[|steps|] && s.history == history && s.feeds == feeds
    ensures summaries[|steps|].finishedAt.Some? ==> forall id :: id in feeds ==> !feeds[id].status.Following?
  {
    hide *;
    var record := new SessionRecord(size, maxTranscriptBytes, quits);
    record.Start();
    summaries := [record.summary];
    FirstSummary(record.summary);
    NobodyLeft(record.feeds, steps);
    assert steps[..0] == [];
    AtTheStart(size, maxTranscriptBytes, quits, steps, now);
    for i := 0 to |steps|
      invariant record.Valid() && fresh(record) && record.size == size
      invariant record.Now() == StateAfter(size, maxTranscriptBytes, quits, steps[..i], now[..i])
      invariant record.maxTranscriptBytes == maxTranscriptBytes && record.quits == quits
      invariant |summaries| == i + 1 && summaries[i] == record.summary && Trace(summaries, steps[..i])
      invariant LeftBy(record.feeds, steps)
    {
      ghost var before, feedsBefore := summaries, record.feeds;
      Perform(record, steps[i], now[i]);
      OneMoreStep(size, maxTranscriptBytes, quits, steps, now, i);
      LeftByStep(feedsBefore, steps, i, record.feeds);
      OneMoreSummary(before, steps, i, record.summary);
      summaries := summaries + [record.summary];
    }
    assert steps[..|steps|] == steps && now[..|now|] == now;
    WhatWasObserved(record);
    ObservedState(record);
    history, transcript, feeds := record.history, record.events, record.feeds;
  }

  lemma AtTheStart(size: Size, limit: int, quits: Quits, steps: seq<Step>, now: seq<int>)
    requires |now| == |steps|
    ensures StateAfter(size, limit, quits, steps[..0], now[..0]) ==
      Emitting(quits, State(Summary(Starting, None, None), [], map[], 0, true, true), StatusEvent(Running, "started"))
  {
  }

  lemma OneMoreStep(size: Size, limit: int, quits: Quits, steps: seq<Step>, now: seq<int>, i: nat)
    requires |now| == |steps| && i < |steps|
    ensures StateAfter(size, limit, quits, steps[..i + 1], now[..i + 1]) ==
      After(size, limit, quits, StateAfter(size, limit, quits, steps[..i], now[..i]), steps[i], now[i])
  {
    hide After;
    assert steps[..i + 1][..i] == steps[..i] && now[..i + 1][..i] == now[..i];
  }

  lemma ObservedState(record: SessionRecord)
    ensures
      var s := record.Now();
      s.summary == record.summary && s.history == record.history && s.feeds == record.feeds
  {
  }

  ghost predicate LeftBy(feeds: map<nat, Feed>, steps: seq<Step>) {
    forall id :: id in feeds && feeds[id].status.Left? ==> OnUnsubscribe(id) in steps || OnManagerClose in steps
  }

  lemma NobodyLeft(feeds: map<nat, Feed>, steps: seq<Step>)
    requires feeds.Keys == {}
    ensures LeftBy(feeds, steps)
  {
  }

  lemma LeftByStep(before: map<nat, Feed>, steps: seq<Step>, i: nat, after: map<nat, Feed>)
    requires i < |steps| && LeftBy(before, steps) && LeavesOnlyBy(before, steps[i], after)
    ensures LeftBy(after, steps)
  {
    assert steps[i] in steps;
  }

  lemma FirstSummary(summary: Summary)
    requires summary.finishedAt.None?
    ensures Trace([summary], [])
  {
  }

  lemma OneMoreSummary(summaries: seq<Summary>, steps: seq<Step>, i: nat, after: Summary)
    requires i < |steps| && |summaries| == i + 1 && Trace(summaries, steps[..i])
    requires MayBecome(summaries[i], steps[i], after) && (after.finishedAt.Some? ==> after.status.Final())
    ensures Trace(summaries + [after], steps[..i + 1])
  {
    hide MayBecome;
    assert forall k :: 0 <= k < i ==> steps[..i + 1][k] == steps[..i][k];
  }

  lemma WhatWasObserved(record: SessionRecord)
    requires record.Valid()
    ensures Observed(record.size, record.maxTranscriptBytes, record.quits, record.history, record.events, record.feeds)
    ensures Exits(record.history) == if record.summary.finishedAt.Some? then 1 else 0
    ensures record.summary.finishedAt.Some? ==> forall id :: id in record.feeds ==> !record.feeds[id].status.Following?
  {
    hide IsLongestFit, Exits, SizesMatch, Total, PartOf;
  }

  // Once the finish time is set, nothing changes any more.
  lemma {:induction false} FinishedIsForever(summaries: seq<Summary>, steps: seq<Step>, i: nat, j: nat)
    requires Trace(summaries, steps) && i <= j <= |steps| && summaries[i].finishedAt.Some?
    ensures summaries[j] == summaries[i]
    decreases j
  {
    if i < j {
      FinishedIsForever(summaries, steps, i, j - 1);
      assert MayBecome(summaries[j - 1], steps[j - 1], summaries[j]);
    }
  }

  // A terminated or timed-out session keeps that status whatever the exit code, unless
  // the child reports an error before the session has finished; then it has failed.
  lemma {:induction false} StoppedStaysStopped(summaries: seq<Summary>, steps: seq<Step>, i: nat, j: nat)
    requires Trace(summaries, steps) && i <= j <= |steps| && summaries[i].status.Stopped()
    ensures summaries[j].status == if ErrorBetween(summaries, steps, i, j) then Failed else summaries[i].status
    ensures summaries[j].status == Failed ==> summaries[j].finishedAt.Some?
    decreases j
  {
    if i < j {
      StoppedStaysStopped(summaries, steps, i, j - 1);
      assert MayBecome(summaries[j - 1], steps[j - 1], summaries[j]);
      assert ErrorBetween(summaries, steps, i, j) <==>
        ErrorBetween(summaries, steps, i, j - 1) || (steps[j - 1].OnError? && summaries[j - 1].finishedAt.None?);
    }
  }

  // The child reported an error while the session had no finish time.
  ghost predicate ErrorBetween(summaries: seq<Summary>, steps: seq<Step>, i: nat, j: nat)
    requires |summaries| == |steps| + 1 && i <= j <= |steps|
  {
    exists k :: i <= k < j && steps[k].OnError? && summaries[k].finishedAt.None?
  }
}
