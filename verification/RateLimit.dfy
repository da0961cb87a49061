// The fixed-window rate limiter of the server, over its least-recently-used store.
module RateLimit {
  import opened Wrappers
  import opened OrderedMap

  datatype Window = Window(count: nat, resetTime: int)

  // ---- one key, without a store ----

  datatype Decision = Decision(allowed: bool, window: Window)

  function Decide(max: int, windowMs: int, entry: Option<Window>, now: int): Decision {
    if entry.None? || now > entry.value.resetTime then Decision(true, Window(1, now + windowMs))
    else if entry.value.count >= max then Decision(false, entry.value)
    else Decision(true, entry.value.(count := entry.value.count + 1))
  }

  // An expired window decides like no window at all, now and ever after.
  function Live(entry: Option<Window>, now: int): Option<Window> {
    if entry.Some? && now > entry.value.resetTime then None else entry
  }

  lemma ExpiredIsAbsent(max: int, windowMs: int, a: Option<Window>, b: Option<Window>, then_: int, now: int)
    requires Live(a, then_) == Live(b, then_) && then_ <= now
    ensures Decide(max, windowMs, a, now) == Decide(max, windowMs, b, now)
    ensures Live(a, now) == Live(b, now)
  {
  }

  // The window of a key after all its requests.
  function WindowAfter(max: int, windowMs: int, times: seq<int>): Option<Window> {
    if times == [] then None
    else Some(Decide(max, windowMs, WindowAfter(max, windowMs, times[..|times| - 1]), times[|times| - 1]).window)
  }

  function Allowed(max: int, windowMs: int, times: seq<int>, now: int): bool {
    Decide(max, windowMs, WindowAfter(max, windowMs, times), now).allowed
  }

  // The times of the admitted requests.
  function Admitted(max: int, windowMs: int, times: seq<int>): seq<int> {
    if times == [] then []
    else
      var before, now := times[..|times| - 1], times[|times| - 1];
      Admitted(max, windowMs, before) + if Allowed(max, windowMs, before, now) then [now] else []
  }

  ghost predicate Monotone(times: seq<int>) {
    forall i, j :: 0 <= i < j < |times| ==> times[i] <= times[j]
  }

  function AtLeastOne(max: int): nat {
    if max < 1 then 1 else max
  }

  // starts lists where the windows begin in the list of admissions.
  function End(admitted: seq<int>, starts: seq<nat>, k: nat): nat
    requires k < |starts|
  {
    if k + 1 < |starts| then starts[k + 1] else |admitted|
  }

  // A window admits at most max requests, all within windowMs; the next one begins later.
  ghost predicate WindowAt(max: int, windowMs: int, admitted: seq<int>, starts: seq<nat>, k: nat)
    requires k < |starts|
  {
    var start, end := starts[k], End(admitted, starts, k);
    && start < end <= |admitted| && end - start <= AtLeastOne(max)
    && (forall i :: start <= i < end ==> admitted[start] <= admitted[i] <= admitted[start] + windowMs)
    && (end < |admitted| ==> admitted[end] > admitted[start] + windowMs)
  }

  ghost predicate Windows(max: int, windowMs: int, admitted: seq<int>, starts: seq<nat>) {
    && (if admitted == [] then starts == [] else starts != [] && starts[0] == 0)
    && (forall k :: 0 <= k < |starts| ==> WindowAt(max, windowMs, admitted, starts, k))
    && Monotone(admitted)
  }

  // The counter and reset time of the store describe the last window.
  ghost predicate Describes(windowMs: int, window: Option<Window>, admitted: seq<int>, starts: seq<nat>) {
    if starts == [] then window.None?
    else
      var start := starts[|starts| - 1];
      start < |admitted| && window == Some(Window(|admitted| - start, admitted[start] + windowMs))
  }

  // Every request list splits its admissions into such windows.
  lemma {:induction false} AdmissionsFormWindows(max: int, windowMs: int, times: seq<int>) returns (starts: seq<nat>)
    requires Monotone(times) && windowMs >= 0
    ensures Windows(max, windowMs, Admitted(max, windowMs, times), starts)
    ensures Describes(windowMs, WindowAfter(max, windowMs, times), Admitted(max, windowMs, times), starts)
    ensures forall t :: t in Admitted(max, windowMs, times) ==> t in times
  {
    hide Windows, WindowAt, Decide, Monotone, Describes;
    if times == [] {
      starts := [];
      NoWindows(max, windowMs);
    } else {
      var before, now := times[..|times| - 1], times[|times| - 1];
      BeforeTheLast(times);
      starts := AdmissionsFormWindows(max, windowMs, before);
      forall i | 0 <= i < |Admitted(max, windowMs, before)| ensures Admitted(max, windowMs, before)[i] <= now {
        assert Admitted(max, windowMs, before)[i] in Admitted(max, windowMs, before);
      }
      var admitted, window := Admitted(max, windowMs, before), WindowAfter(max, windowMs, before);
      starts := OneMoreRequest(max, windowMs, admitted, starts, window, now);
    }
  }

  lemma NoWindows(max: int, windowMs: int)
    ensures Windows(max, windowMs, [], []) && Describes(windowMs, None, [], [])
  {
  }

  lemma BeforeTheLast(times: seq<int>)
    requires times != [] && Monotone(times)
    ensures Monotone(times[..|times| - 1])
    ensures forall i :: 0 <= i < |times| ==> times[i] <= times[|times| - 1]
  {
  }

  lemma OneMoreRequest(max: int, windowMs: int, admitted: seq<int>, starts: seq<nat>, window: Option<Window>, now: int)
    returns (starts': seq<nat>)
    requires Windows(max, windowMs, admitted, starts) && Describes(windowMs, window, admitted, starts) && windowMs >= 0
    requires forall i :: 0 <= i < |admitted| ==> admitted[i] <= now
    ensures
      var decision := Decide(max, windowMs, window, now);
      var admitted' := admitted + if decision.allowed then [now] else [];
      Windows(max, windowMs, admitted', starts') && Describes(windowMs, Some(decision.window), admitted', starts')
  {
    starts' := starts;
    if Live(window, now).None? {
      OpenWindow(max, windowMs, admitted, starts, now);
      starts' := starts + [|admitted|];
    } else if window.value.count < max {
      FillWindow(max, windowMs, admitted, starts, now);
    } else {
      assert admitted + [] == admitted;
    }
  }

  lemma OpenWindow(max: int, windowMs: int, admitted: seq<int>, starts: seq<nat>, now: int)
    requires Windows(max, windowMs, admitted, starts) && windowMs >= 0
    requires forall i :: 0 <= i < |admitted| ==> admitted[i] <= now
    requires starts != [] ==> starts[|starts| - 1] < |admitted| && now > admitted[starts[|starts| - 1]] + windowMs
    ensures Windows(max, windowMs, admitted + [now], starts + [|admitted|])
  {
    var admitted', starts' := admitted + [now], starts + [|admitted|];
    forall k | 0 <= k < |starts'| ensures WindowAt(max, windowMs, admitted', starts', k) {
      if k < |starts| {
        assert WindowAt(max, windowMs, admitted, starts, k);
        assert k + 1 < |starts| ==> WindowAt(max, windowMs, admitted, starts, k + 1);
        assert End(admitted', starts', k) == End(admitted, starts, k);
      }
    }
  }

  lemma FillWindow(max: int, windowMs: int, admitted: seq<int>, starts: seq<nat>, now: int)
    requires Windows(max, windowMs, admitted, starts) && starts != []
    requires forall i :: 0 <= i < |admitted| ==> admitted[i] <= now
    requires
      var start := starts[|starts| - 1];
      start < |admitted| && |admitted| - start < max && now <= admitted[start] + windowMs
    ensures Windows(max, windowMs, admitted + [now], starts)
  {
    var admitted' := admitted + [now];
    forall k | 0 <= k < |starts| ensures WindowAt(max, windowMs, admitted', starts, k) {
      assert WindowAt(max, windowMs, admitted, starts, k);
      assert k + 1 < |starts| ==> WindowAt(max, windowMs, admitted, starts, k + 1);
    }
  }

  function WindowOf(starts: seq<nat>, i: nat): (k: nat)
    requires starts != [] && starts[0] <= i
    ensures k < |starts| && starts[k] <= i
    ensures k + 1 < |starts| ==> i < starts[k + 1]
  {
    if |starts| == 1 || i < starts[1] then 0 else 1 + WindowOf(starts[1..], i)
  }

  // Any admissions within windowMs of each other are at most twice the limit.
  lemma AtMostTwiceTheLimit(max: int, windowMs: int, times: seq<int>, i: nat, j: nat)
    requires Monotone(times) && windowMs >= 0
    requires i < j <= |Admitted(max, windowMs, times)|
    requires Admitted(max, windowMs, times)[j - 1] - Admitted(max, windowMs, times)[i] <= windowMs
    ensures j - i <= 2 * AtLeastOne(max)
  {
    var admitted := Admitted(max, windowMs, times);
    var starts := AdmissionsFormWindows(max, windowMs, times);
    hide *;
    assert starts != [] && starts[0] == 0 by { AnyWindow(max, windowMs, admitted, starts); }
    if WindowOf(starts, j - 1) > WindowOf(starts, i) + 1 {
      Apart(max, windowMs, admitted, starts, i, j - 1);
    } else {
      CloseTogether(max, windowMs, admitted, starts, i, j - 1);
    }
  }

  // A request is admitted exactly when there is no admission yet, the last window has
  // ended, or it still has room.
  lemma AdmittedExactly(max: int, windowMs: int, times: seq<int>, now: int) returns (starts: seq<nat>)
    requires Monotone(times) && windowMs >= 0
    ensures Windows(max, windowMs, Admitted(max, windowMs, times), starts)
    ensures
      var admitted := Admitted(max, windowMs, times);
      Allowed(max, windowMs, times, now) <==>
        admitted == [] ||
        (var start := starts[|starts| - 1];
         start < |admitted| && (now > admitted[start] + windowMs || |admitted| - start < max))
  {
    starts := AdmissionsFormWindows(max, windowMs, times);
    hide Admitted, WindowAfter, Monotone;
    var admitted := Admitted(max, windowMs, times);
    if admitted != [] {
      assert WindowAt(max, windowMs, admitted, starts, |starts| - 1);
    }
  }

  // In particular a request is admitted when fewer than the limit were admitted within
  // windowMs before it.
  lemma UnderTheLimitIsAdmitted(max: int, windowMs: int, times: seq<int>, now: int)
    requires Monotone(times) && windowMs >= 0 && max >= 1
    requires
      var admitted := Admitted(max, windowMs, times);
      |admitted| >= max ==> admitted[|admitted| - max] < now - windowMs
    ensures Allowed(max, windowMs, times, now)
  {
    var starts := AdmittedExactly(max, windowMs, times, now);
    hide Admitted, Allowed, WindowAt;
    var admitted := Admitted(max, windowMs, times);
    if admitted != [] {
      var start, full := starts[|starts| - 1], |admitted| - max;
      LastWindow(max, windowMs, admitted, starts);
      if start <= full {
        assert admitted[start] <= admitted[full];
      }
    }
  }

  lemma LastWindow(max: int, windowMs: int, admitted: seq<int>, starts: seq<nat>)
    requires Windows(max, windowMs, admitted, starts) && admitted != []
    ensures starts != [] && starts[|starts| - 1] < |admitted| && Monotone(admitted)
  {
    assert WindowAt(max, windowMs, admitted, starts, |starts| - 1);
  }

  lemma AnyWindow(max: int, windowMs: int, admitted: seq<int>, starts: seq<nat>)
    requires Windows(max, windowMs, admitted, starts) && admitted != []
    ensures starts != [] && starts[0] == 0
  {
  }

  lemma CloseTogether(max: int, windowMs: int, admitted: seq<int>, starts: seq<nat>, i: nat, j: nat)
    requires Windows(max, windowMs, admitted, starts) && starts != [] && i <= j < |admitted|
    requires WindowOf(starts, j) <= WindowOf(starts, i) + 1
    ensures j + 1 - i <= 2 * AtLeastOne(max)
  {
    hide Monotone, Admitted;
    var first, last := WindowOf(starts, i), WindowOf(starts, j);
    if last < first {
      StartsIncrease(max, windowMs, admitted, starts, last + 1, first);
    }
    assert WindowAt(max, windowMs, admitted, starts, last);
    assert WindowAt(max, windowMs, admitted, starts, first);
  }

  lemma Apart(max: int, windowMs: int, admitted: seq<int>, starts: seq<nat>, i: nat, j: nat)
    requires Windows(max, windowMs, admitted, starts) && starts != [] && i < |admitted| && j < |admitted|
    requires WindowOf(starts, j) > WindowOf(starts, i) + 1
    ensures admitted[j] - admitted[i] > windowMs
  {
    var first, last := WindowOf(starts, i), WindowOf(starts, j);
    assert WindowAt(max, windowMs, admitted, starts, last);
    assert WindowAt(max, windowMs, admitted, starts, last - 1);
    StartsIncrease(max, windowMs, admitted, starts, first + 1, last - 1);
    assert admitted[i] <= admitted[starts[last - 1]];
    assert admitted[starts[last]] <= admitted[j];
  }

  lemma {:induction false} StartsIncrease(max: int, windowMs: int, admitted: seq<int>, starts: seq<nat>, k: nat, l: nat)
    requires Windows(max, windowMs, admitted, starts) && k < |starts| && l < |starts|
    ensures k <= l ==> starts[k] <= starts[l]
    ensures k > l ==> starts[l] < starts[k]
    decreases if k <= l then l - k else k - l
  {
    if k < l {
      assert WindowAt(max, windowMs, admitted, starts, l - 1);
      StartsIncrease(max, windowMs, admitted, starts, k, l - 1);
    } else if k > l {
      assert WindowAt(max, windowMs, admitted, starts, k - 1);
      StartsIncrease(max, windowMs, admitted, starts, k - 1, l);
    }
  }

  // The advised delay: whole seconds up to the reset time.
  function RetryAfter(window: Window, now: int): int {
    (window.resetTime - now + 999) / 1000
  }

  // A client that waits exactly the advised time is admitted if and only if the rest of
  // the window is not a whole number of seconds: the reset time itself is still inside.
  lemma WaitingAsAdvised(max: int, windowMs: int, window: Window, now: int)
    requires !Decide(max, windowMs, Some(window), now).allowed
    ensures RetryAfter(window, now) >= 0
    ensures Decide(max, windowMs, Some(window), now + 1000 * RetryAfter(window, now)).allowed <==>
      (window.resetTime - now) % 1000 != 0
  {
  }

  // ---- the store ----

  type Store = seq<Slot<string, Window>>

  function TimesOf(times: map<string, seq<int>>, key: string): seq<int> {
    if key in times then times[key] else []
  }

  // Oldest use first.
  ghost predicate ByLastUse(store: Store, lastUse: map<string, nat>) {
    && (forall i :: 0 <= i < |store| ==> store[i].key in lastUse)
    && (forall i, j :: 0 <= i < j < |store| ==> lastUse[store[i].key] < lastUse[store[j].key])
  }

  // A key decides as if its requests were the only ones and the store had no bound.
  ghost predicate AgreesOn(max: int, windowMs: int, store: Store, times: seq<int>, key: string, clock: int) {
    Live(Lookup(store, key), clock) == Live(WindowAfter(max, windowMs, times), clock)
  }

  // The store after a slot was set: one key too many drops the least recently used one.
  function Put(store: Store, key: string, window: Window, capacity: nat): Store {
    var r := Without(store, key) + [Slot(key, window)];
    if |r| <= capacity then r else r[1..]
  }

  function Dropped(store: Store, key: string, capacity: nat): set<string> {
    if |Without(store, key)| < capacity || Without(store, key) == [] then {} else {Without(store, key)[0].key}
  }

  lemma PutLooksUp(store: Store, key: string, window: Window, capacity: nat)
    requires Distinct(store) && |store| <= capacity && capacity >= 1
    ensures
      var r := Put(store, key, window, capacity);
      && Distinct(r) && |r| <= capacity && Lookup(r, key) == Some(window)
      && (forall k :: k != key && k !in Dropped(store, key, capacity) ==> Lookup(r, k) == Lookup(store, k))
      && (forall k :: k in Dropped(store, key, capacity) ==> k != key && |r| == capacity)
  {
    hide Distinct, Lookup, Without;
    var all := Without(store, key) + [Slot(key, window)];
    SettingOne(store, key, window);
    WithoutKey(store, key);
    if |all| > capacity {
      RemovingOne(all, 0);
      assert all[..0] + all[1..] == all[1..];
    }
  }

  lemma WithoutKey(store: Store, key: string)
    requires Distinct(store)
    ensures forall i :: 0 <= i < |Without(store, key)| ==>
      Without(store, key)[i].key != key && Without(store, key)[i] in store
    ensures |Without(store, key)| <= |store|
  {
  }

  lemma PutKeepsTheOrder(store: Store, key: string, window: Window, capacity: nat, lastUse: map<string, nat>, now: nat)
    requires Distinct(store) && ByLastUse(store, lastUse) && forall k :: k in lastUse ==> lastUse[k] < now
    ensures ByLastUse(Put(store, key, window, capacity), lastUse[key := now])
    ensures forall k :: k in Dropped(store, key, capacity) && k != key ==>
      UsedSince(Put(store, key, window, capacity), lastUse[key := now], k)
  {
    hide Without, Distinct;
    var kept := Without(store, key);
    WithoutKey(store, key);
    WithoutKeepsTheOrder(store, key, lastUse);
    UsedNow(kept, key, window, lastUse, now);
    var all := kept + [Slot(key, window)];
    if |all| > capacity {
      assert forall j :: 0 <= j < |all| - 1 ==> all[1..][j] == all[j + 1];
    }
  }

  lemma WithoutKeepsTheOrder(store: Store, key: string, lastUse: map<string, nat>)
    requires ByLastUse(store, lastUse)
    ensures ByLastUse(Without(store, key), lastUse)
  {
    var kept, i := Without(store, key), IndexOf(store, key);
    if i < |store| {
      assert forall j :: 0 <= j < |kept| ==> kept[j] == if j < i then store[j] else store[j + 1];
    }
  }

  lemma UsedNow(kept: Store, key: string, window: Window, lastUse: map<string, nat>, now: nat)
    requires ByLastUse(kept, lastUse) && forall k :: k in lastUse ==> lastUse[k] < now
    requires forall i :: 0 <= i < |kept| ==> kept[i].key != key
    ensures ByLastUse(kept + [Slot(key, window)], lastUse[key := now])
  {
    var all := kept + [Slot(key, window)];
    assert forall i :: 0 <= i < |kept| ==> all[i] == kept[i];
  }

  // Every key of the store was used after k.
  ghost predicate UsedSince(store: Store, lastUse: map<string, nat>, k: string) {
    k in lastUse && forall i :: 0 <= i < |store| ==> store[i].key in lastUse && lastUse[store[i].key] > lastUse[k]
  }

  lemma SettingAgain(store: Store, key: string, value: Window)
    requires Distinct(store)
    ensures Without(Without(store, key) + [Slot(key, value)], key) == Without(store, key)
  {
    var kept := Without(store, key);
    WithoutKey(store, key);
    var all := kept + [Slot(key, value)];
    var i := IndexOf(all, key);
    assert all[|kept|].key == key;
    assert forall j :: 0 <= j < |kept| ==> all[j] == kept[j];
    assert all[..|kept|] + all[|kept| + 1..] == kept;
  }

  lemma FaithfulAfter(max: int, windowMs: int, store: Store, store': Store, times: map<string, seq<int>>,
                      lost: set<string>, clock: int, key: string, now: int, dropped: set<string>)
    requires clock <= now
    requires forall k :: k !in lost ==> AgreesOn(max, windowMs, store, TimesOf(times, k), k, clock)
    requires Lookup(store', key) == Some(Decide(max, windowMs, Lookup(store, key), now).window)
    requires forall k :: k != key && k !in dropped ==> Lookup(store', k) == Lookup(store, k)
    ensures key !in lost ==>
      Decide(max, windowMs, Lookup(store, key), now).allowed == Allowed(max, windowMs, TimesOf(times, key), now)
    ensures forall k :: k !in lost + dropped ==>
      AgreesOn(max, windowMs, store', TimesOf(Noted(times, key, now), k), k, now)
  {
    hide Lookup, WindowAfter, Decide, Live, AgreesOn;
    if key !in lost {
      OwnDecision(max, windowMs, store, store', TimesOf(times, key), key, clock, now);
    }
    forall k | k !in lost + dropped && k != key ensures AgreesOn(max, windowMs, store', TimesOf(times, k), k, now) {
      OtherKey(max, windowMs, store, store', TimesOf(times, k), k, clock, now);
    }
  }

  lemma OtherKey(max: int, windowMs: int, store: Store, store': Store, times: seq<int>, k: string, clock: int, now: int)
    requires clock <= now && AgreesOn(max, windowMs, store, times, k, clock) && Lookup(store', k) == Lookup(store, k)
    ensures AgreesOn(max, windowMs, store', times, k, now)
  {
    hide Lookup, WindowAfter;
  }

  lemma OwnDecision(
    max: int, windowMs: int, store: Store, store': Store, times: seq<int>, key: string, clock: int, now: int)
    requires clock <= now && AgreesOn(max, windowMs, store, times, key, clock)
    requires Lookup(store', key) == Some(Decide(max, windowMs, Lookup(store, key), now).window)
    ensures Decide(max, windowMs, Lookup(store, key), now).allowed == Allowed(max, windowMs, times, now)
    ensures AgreesOn(max, windowMs, store', times + [now], key, now)
  {
    hide Lookup;
    assert (times + [now])[..|times|] == times;
    ExpiredIsAbsent(max, windowMs, Lookup(store, key), WindowAfter(max, windowMs, times), clock, now);
  }

  lemma SweepingOne(store: Store, i: nat, lastUse: map<string, nat>, now: int)
    requires Distinct(store) && ByLastUse(store, lastUse) && i < |store| && now > store[i].value.resetTime
    ensures
      var r := store[..i] + store[i + 1..];
      && Distinct(r) && ByLastUse(r, lastUse)
      && forall key :: Live(Lookup(r, key), now) == Live(Lookup(store, key), now)
  {
    hide Lookup;
    RemovingOne(store, i);
    LookupAt(store, i);
    var r := store[..i] + store[i + 1..];
    assert forall j :: 0 <= j < |r| ==> r[j] == if j < i then store[j] else store[j + 1];
    LookupFinds(r, store[i].key);
  }

  // The slots whose window has not ended, in order.
  function Unexpired(store: Store, now: int): Store {
    if store == [] then []
    else (if now > store[0].value.resetTime then [] else [store[0]]) + Unexpired(store[1..], now)
  }

  // A key is dropped exactly when it is stored before another key is set, and not after.
  lemma DroppedIsGone(store: Store, key: string, window: Window, capacity: nat, k: string)
    requires Distinct(store) && |store| <= capacity && capacity >= 1
    ensures k in Dropped(store, key, capacity) <==>
      k != key && Lookup(store, k).Some? && Lookup(Put(store, key, window, capacity), k).None?
  {
    hide Lookup, Without;
    PutLooksUp(store, key, window, capacity);
    if k in Dropped(store, key, capacity) {
      FirstIsGone(store, key, window, capacity);
    }
  }

  lemma FirstIsGone(store: Store, key: string, window: Window, capacity: nat)
    requires Distinct(store) && |store| <= capacity && capacity >= 1 && Dropped(store, key, capacity) != {}
    ensures
      var k := Without(store, key)[0].key;
      k != key && Lookup(store, k).Some? && Lookup(Put(store, key, window, capacity), k).None?
  {
    hide Lookup;
    WithoutKey(store, key);
    var rest := Without(store, key);
    var all := rest + [Slot(key, window)];
    var k := rest[0].key;
    LookupFinds(store, k);
    LookupFinds(all[1..], k);
    assert HasKey(store, k) by { assert rest[0] in store; }
    assert Put(store, key, window, capacity) == all[1..];
    assert forall j :: 1 <= j < |all| ==> all[1..][j - 1] == all[j];
  }

  lemma NothingExpired(store: Store, now: int)
    requires forall j :: 0 <= j < |store| ==> store[j].value.resetTime >= now
    ensures forall key :: Live(Lookup(store, key), now) == Lookup(store, key)
  {
  }

  ghost predicate UpTo(times: seq<int>, clock: int) {
    Monotone(times) && forall i :: 0 <= i < |times| ==> times[i] <= clock
  }

  ghost predicate InTime(times: map<string, seq<int>>, clock: int) {
    forall key :: UpTo(TimesOf(times, key), clock)
  }

  ghost predicate AdmittedAsAlone(
    max: int, windowMs: int, times: map<string, seq<int>>, admitted: map<string, seq<int>>, lost: set<string>)
  {
    forall key :: key !in lost ==> TimesOf(admitted, key) == Admitted(max, windowMs, TimesOf(times, key))
  }

  function Noted(times: map<string, seq<int>>, key: string, now: int): map<string, seq<int>> {
    times[key := TimesOf(times, key) + [now]]
  }

  lemma StillInTime(times: map<string, seq<int>>, key: string, clock: int, now: int)
    requires clock <= now && InTime(times, clock)
    ensures InTime(times, now) && InTime(Noted(times, key, now), now)
  {
    forall k ensures UpTo(TimesOf(times, k), now) && UpTo(TimesOf(Noted(times, key, now), k), now) {
      assert UpTo(TimesOf(times, k), clock);
      assert UpTo(TimesOf(times, key), clock);
    }
  }

  lemma AdmissionsRecorded(max: int, windowMs: int, times: map<string, seq<int>>, admitted: map<string, seq<int>>,
                           lost: set<string>, dropped: set<string>, key: string, now: int, allowed: bool)
    requires AdmittedAsAlone(max, windowMs, times, admitted, lost)
    requires key !in lost ==> allowed == Allowed(max, windowMs, TimesOf(times, key), now)
    ensures
      var admitted' := if allowed then Noted(admitted, key, now) else admitted;
      AdmittedAsAlone(max, windowMs, Noted(times, key, now), admitted', lost + dropped)
  {
    hide Admitted, Allowed;
    OneMoreAdmission(max, windowMs, TimesOf(times, key), now);
  }

  lemma OneMoreAdmission(max: int, windowMs: int, times: seq<int>, now: int)
    ensures Admitted(max, windowMs, times + [now]) ==
      Admitted(max, windowMs, times) + if Allowed(max, windowMs, times, now) then [now] else []
  {
    assert (times + [now])[..|times|] == times;
  }

  class Limiter {
    const max: int
    const windowMs: int
    const capacity: nat
    var store: Store
    // Per key: when its requests came and when they were admitted.
    ghost var times: map<string, seq<int>>
    ghost var admitted: map<string, seq<int>>
    ghost var lastUse: map<string, nat>
    ghost var uses: nat
    // The keys that were ever dropped for capacity.
    var lost: set<string>
    ghost var clock: int

    ghost predicate LeastRecentlyUsed()
      reads `store, `lastUse, `uses
    {
      && Distinct(store) && |store| <= capacity && ByLastUse(store, lastUse)
      && forall key :: key in lastUse ==> lastUse[key] < uses
    }

    ghost predicate Faithful()
      reads `store, `times, `lost, `clock
    {
      forall key :: key !in lost ==> AgreesOn(max, windowMs, store, TimesOf(times, key), key, clock)
    }

    ghost predicate Recorded()
      reads `times, `admitted, `lost, `clock
    {
      InTime(times, clock) && AdmittedAsAlone(max, windowMs, times, admitted, lost)
    }

    ghost predicate Valid()
      reads this
    {
      LeastRecentlyUsed() && Faithful() && Recorded() && capacity >= 1
    }

    // For a key that was not dropped: admissions within windowMs of each other are at
    // most twice the limit, whatever the other keys and the sweeps did in between.
    lemma AdmissionBound(key: string, i: nat, j: nat)
      requires Valid() && key !in lost && windowMs >= 0 && i < j <= |TimesOf(admitted, key)|
      requires TimesOf(admitted, key)[j - 1] - TimesOf(admitted, key)[i] <= windowMs
      ensures j - i <= 2 * AtLeastOne(max)
    {
      AtMostTwiceTheLimit(max, windowMs, TimesOf(times, key), i, j);
    }

    constructor (max: int, windowMs: int, maxSize: int)
      ensures Valid() && lost == {} && times == map[] && admitted == map[] && clock == 0
      ensures this.max == max && this.windowMs == windowMs && store == []
      ensures capacity == if maxSize < 1 then 1 else maxSize
    {
      this.max, this.windowMs, capacity := max, windowMs, if maxSize < 1 then 1 else maxSize;
      store, times, admitted, lastUse, uses, lost, clock := [], map[], map[], map[], 0, {}, 0;
    }

    // LruMap.get
    method Get(key: string) returns (entry: Option<Window>)
      modifies `store
      ensures entry == Lookup(old(store), key)
      ensures store == if entry.Some? then Without(old(store), key) + [Slot(key, entry.value)] else old(store)
    {
      entry := Lookup(store, key);
      if entry.Some? {
        store := Without(store, key) + [Slot(key, entry.value)];
      }
    }

    // LruMap.set
    method Set(key: string, window: Window)
      requires |store| <= capacity && capacity >= 1
      modifies `store
      ensures store == Put(old(store), key, window, capacity)
    {
      store := Without(store, key) + [Slot(key, window)];
      ghost var all := store;
      while |store| > capacity
        invariant store == all || (|all| > capacity && store == all[1..])
        invariant |all| <= capacity + 1
        decreases |store|
      {
        store := store[1..];
      }
    }

    // checkRateLimit.  As long as a key was not dropped for capacity, it is decided
    // exactly as if its own requests were the only ones; a key is dropped only when
    // `capacity` other keys were used after it.
    method Check(key: string, now: int) returns (allowed: bool, retryAfter: Option<int>)
      requires Valid() && clock <= now
      modifies this
      ensures Valid() && clock == now
      ensures times == Noted(old(times), key, now)
      ensures admitted == if allowed then Noted(old(admitted), key, now) else old(admitted)
      ensures key !in old(lost) ==> allowed == Allowed(max, windowMs, TimesOf(old(times), key), now)
      ensures
        var decision := Decide(max, windowMs, Lookup(old(store), key), now);
        && store == Put(old(store), key, decision.window, capacity)
        && allowed == decision.allowed && retryAfter == if allowed then None else Some(RetryAfter(decision.window, now))
      ensures lost == old(lost) + Dropped(old(store), key, capacity)
      ensures forall k :: k in lost - old(lost) ==> |store| == capacity && UsedSince(store, lastUse, k)
      ensures lastUse == old(lastUse)[key := old(uses)]
    {
      hide Distinct, Lookup, Without, Put, ByLastUse, WindowAfter, Dropped, InTime, AdmittedAsAlone, Noted, TimesOf;
      hide Allowed, UsedSince, AgreesOn;
      ghost var decision := Decide(max, windowMs, Lookup(store, key), now);
      PutLooksUp(store, key, decision.window, capacity);
      PutKeepsTheOrder(store, key, decision.window, capacity, lastUse, uses);
      var dropped := Dropped(store, key, capacity);
      allowed, retryAfter := Admit(key, now);
      FaithfulAfter(max, windowMs, old(store), store, old(times), old(lost), old(clock), key, now, dropped);
      StillInTime(times, key, clock, now);
      AdmissionsRecorded(max, windowMs, times, admitted, lost, Dropped(old(store), key, capacity), key, now, allowed);
      lost := lost + dropped;
      if allowed {
        admitted := Noted(admitted, key, now);
      }
      times := Noted(times, key, now);
      lastUse := lastUse[key := uses];
      uses := uses + 1;
      clock := now;
    }

    method Admit(key: string, now: int) returns (allowed: bool, retryAfter: Option<int>)
      requires Distinct(store) && |store| <= capacity && capacity >= 1
      modifies `store
      ensures
        var decision := Decide(max, windowMs, Lookup(old(store), key), now);
        && store == Put(old(store), key, decision.window, capacity)
        && allowed == decision.allowed
        && retryAfter == if allowed then None else Some(RetryAfter(decision.window, now))
    {
      WithoutKey(store, key);
      var entry := Get(key);
      if entry.None? || now > entry.value.resetTime {
        if entry.Some? {
          SettingAgain(old(store), key, entry.value);
        }
        Set(key, Window(1, now + windowMs));
        return true, None;
      }
      if entry.value.count >= max {
        return false, Some(RetryAfter(entry.value, now));
      }
      store := store[|store| - 1 := Slot(key, entry.value.(count := entry.value.count + 1))];
      return true, None;
    }

    // The periodic sweep: expired entries go, and no decision changes.
    method Sweep(now: int)
      requires Valid() && clock <= now
      modifies `store, `clock
      ensures Valid() && clock == now
      ensures forall key :: Lookup(store, key) == Live(Lookup(old(store), key), now)
      ensures store == Unexpired(old(store), now) && lost == old(lost)
    {
      hide Distinct, ByLastUse, Lookup, InTime, AdmittedAsAlone;
      StillInTime(times, "", clock, now);
      var i := 0;
      while i < |store|
        invariant i <= |store| && LeastRecentlyUsed()
        invariant forall j :: 0 <= j < i ==> store[j].value.resetTime >= now
        invariant Unexpired(old(store), now) == store[..i] + Unexpired(store[i..], now)
        invariant forall key :: Live(Lookup(store, key), now) == Live(Lookup(old(store), key), now)
        decreases |store| - i
      {
        assert store[i..] == [store[i]] + store[i + 1..];
        if now > store[i].value.resetTime {
          assert (store[..i] + store[i + 1..])[i..] == store[i + 1..];
          SweepingOne(store, i, lastUse, now);
          store := store[..i] + store[i + 1..];
        } else {
          i := i + 1;
        }
      }
      NothingExpired(store, now);
      clock := now;
    }
  }

  // ---- whole runs ----

  datatype Op = Request(key: string, now: int) | Sweeping(now: int)

  ghost predicate Clocked(ops: seq<Op>) {
    && (forall i :: 0 <= i < |ops| ==> 0 <= ops[i].now)
    && (forall i, j :: 0 <= i < j < |ops| ==> ops[i].now <= ops[j].now)
  }

  function NowOf(op: Op, key: string, counted: bool): seq<int> {
    if op.Request? && op.key == key && counted then [op.now] else []
  }

  function RequestsOf(ops: seq<Op>, key: string): seq<int> {
    if ops == [] then []
    else
      var n := |ops| - 1;
      RequestsOf(ops[..n], key) + NowOf(ops[n], key, true)
  }

  // The requests of a key that were let through.
  function LetThrough(ops: seq<Op>, allowed: seq<bool>, key: string): seq<int>
    requires |allowed| == |ops|
  {
    if ops == [] then []
    else
      var n := |ops| - 1;
      LetThrough(ops[..n], allowed[..n], key) + NowOf(ops[n], key, allowed[n])
  }

  lemma OneMoreOp(ops: seq<Op>, allowed: seq<bool>, i: nat, yes: bool)
    requires i < |ops| && |allowed| == i
    ensures forall key :: RequestsOf(ops[..i + 1], key) == RequestsOf(ops[..i], key) + NowOf(ops[i], key, true)
    ensures
      var more := allowed + [yes];
      forall key :: LetThrough(ops[..i + 1], more, key) == LetThrough(ops[..i], allowed, key) + NowOf(ops[i], key, yes)
  {
    assert ops[..i + 1][..i] == ops[..i] && (allowed + [yes])[..i] == allowed;
  }

  // What one operation does to the store, and how it is decided.
  ghost predicate Serves(
    max: int, windowMs: int, capacity: nat, before: Store, op: Op, yes: bool, after: Store)
  {
    match op
    case Request(key, now) =>
      var d := Decide(max, windowMs, Lookup(before, key), now);
      yes == d.allowed && after == Put(before, key, d.window, capacity)
    case Sweeping(now) => !yes && after == Unexpired(before, now)
  }

  // The request of another key pushes this one out of the store.
  ghost predicate PushesOut(before: Store, op: Op, after: Store, key: string) {
    op.Request? && op.key != key && Lookup(before, key).Some? && Lookup(after, key).None?
  }

  ghost predicate PushedOut(stores: seq<Store>, ops: seq<Op>, n: nat, key: string)
    requires n <= |ops| && n < |stores|
  {
    exists i :: 0 <= i < n && PushesOut(stores[i], ops[i], stores[i + 1], key)
  }

  lemma NothingPushed(stores: seq<Store>, ops: seq<Op>)
    requires stores != []
    ensures forall key :: !PushedOut(stores, ops, 0, key)
  {
  }

  lemma PushedOneMore(stores: seq<Store>, ops: seq<Op>, n: nat, store: Store)
    requires n < |ops| && |stores| == n + 1
    ensures forall key :: PushedOut(stores + [store], ops, n + 1, key) <==>
      PushedOut(stores, ops, n, key) || PushesOut(stores[n], ops[n], store, key)
  {
    hide PushesOut;
    var longer := stores + [store];
    assert forall i :: 0 <= i <= n ==> longer[i] == stores[i];
    forall key
      ensures PushedOut(longer, ops, n + 1, key) <==>
        PushedOut(stores, ops, n, key) || PushesOut(stores[n], ops[n], store, key)
    {
      if i :| 0 <= i < n && PushesOut(stores[i], ops[i], stores[i + 1], key) {
        assert PushesOut(longer[i], ops[i], longer[i + 1], key);
      }
      if PushesOut(stores[n], ops[n], store, key) {
        assert PushesOut(longer[n], ops[n], longer[n + 1], key);
      }
    }
  }

  // For any mix of requests of any keys and sweeps: every key that was never pushed out for
  // capacity is let through exactly when it would be if its requests were the only ones.
  method Serve(max: int, windowMs: int, maxSize: int, ops: seq<Op>)
    returns (allowed: seq<bool>, lost: set<string>, stores: seq<Store>)
    requires Clocked(ops)
    ensures |allowed| == |ops| && |stores| == |ops| + 1 && stores[0] == []
    ensures forall i :: 0 <= i < |ops| ==>
      Serves(max, windowMs, if maxSize < 1 then 1 else maxSize, stores[i], ops[i], allowed[i], stores[i + 1])
    ensures forall key :: key in lost <==> PushedOut(stores, ops, |ops|, key)
    ensures forall key :: key !in lost ==>
      LetThrough(ops, allowed, key) == Admitted(max, windowMs, RequestsOf(ops, key))
  {
    hide Admitted, RequestsOf, LetThrough, Allowed, Dropped, UsedSince, Tracks, AdmittedAsAlone, TimesOf, Noted;
    hide InTime, Put, Decide, Lookup, Live, AgreesOn, RetryAfter, PushesOut, Serves, PushedOut;
    var limiter := new Limiter(max, windowMs, maxSize);
    allowed, stores := [], [limiter.store];
    NoOps();
    NothingPushed(stores, ops);
    assert ops[..0] == [];
    for i := 0 to |ops|
      invariant |allowed| == i && fresh(limiter) && limiter.Valid() && limiter.max == max
      invariant limiter.windowMs == windowMs && limiter.capacity == if maxSize < 1 then 1 else maxSize
      invariant |stores| == i + 1 && stores[0] == [] && stores[i] == limiter.store
      invariant forall k :: 0 <= k < i ==>
        Serves(max, windowMs, limiter.capacity, stores[k], ops[k], allowed[k], stores[k + 1])
      invariant forall key :: key in limiter.lost <==> PushedOut(stores, ops, i, key)
      invariant limiter.clock <= if i == 0 then 0 else ops[i - 1].now
      invariant Tracks(limiter.times, limiter.admitted, ops[..i], allowed)
    {
      ghost var times, admitted := limiter.times, limiter.admitted;
      ghost var before, lostBefore := limiter.store, limiter.lost;
      var yes, retryAfter := false, None;
      if ops[i].Request? {
        yes, retryAfter := limiter.Check(ops[i].key, ops[i].now);
      } else {
        limiter.Sweep(ops[i].now);
      }
      TrackOne(times, admitted, ops, allowed, i, yes);
      ServedAndLost(limiter, before, lostBefore, ops[i], yes);
      PushedOneMore(stores, ops, i, limiter.store);
      allowed, stores := allowed + [yes], stores + [limiter.store];
    }
    assert ops[..|ops|] == ops;
    lost := limiter.lost;
    TrackedAsAlone(max, windowMs, limiter.times, limiter.admitted, ops, allowed, lost);
  }

  lemma ServedAndLost(limiter: Limiter, before: Store, lostBefore: set<string>, op: Op, yes: bool)
    requires Distinct(before) && |before| <= limiter.capacity && limiter.capacity >= 1
    requires op.Request? ==>
      var d := Decide(limiter.max, limiter.windowMs, Lookup(before, op.key), op.now);
      && limiter.store == Put(before, op.key, d.window, limiter.capacity) && yes == d.allowed
      && limiter.lost == lostBefore + Dropped(before, op.key, limiter.capacity)
    requires op.Sweeping? ==> !yes && limiter.store == Unexpired(before, op.now) && limiter.lost == lostBefore
    ensures Serves(limiter.max, limiter.windowMs, limiter.capacity, before, op, yes, limiter.store)
    ensures forall key :: key in limiter.lost <==> key in lostBefore || PushesOut(before, op, limiter.store, key)
  {
    hide Distinct, Put, Lookup, Decide, Dropped, Unexpired;
    if op.Request? {
      var d := Decide(limiter.max, limiter.windowMs, Lookup(before, op.key), op.now);
      forall key ensures key in limiter.lost <==> key in lostBefore || PushesOut(before, op, limiter.store, key) {
        DroppedIsGone(before, op.key, d.window, limiter.capacity, key);
      }
    }
  }

  // The histories of the limiter are those of the operations.
  ghost predicate Tracks(
    times: map<string, seq<int>>, admitted: map<string, seq<int>>, ops: seq<Op>, allowed: seq<bool>)
  {
    && |allowed| == |ops|
    && (forall key :: TimesOf(times, key) == RequestsOf(ops, key))
    && (forall key :: TimesOf(admitted, key) == LetThrough(ops, allowed, key))
  }

  function NotedIf(times: map<string, seq<int>>, op: Op, counted: bool): map<string, seq<int>> {
    if op.Request? && counted then Noted(times, op.key, op.now) else times
  }

  lemma NotedForKey(times: map<string, seq<int>>, op: Op, counted: bool, key: string)
    ensures TimesOf(NotedIf(times, op, counted), key) == TimesOf(times, key) + NowOf(op, key, counted)
  {
  }

  lemma TrackOne(
    times: map<string, seq<int>>, admitted: map<string, seq<int>>, ops: seq<Op>, allowed: seq<bool>, i: nat,
    yes: bool)
    requires i < |ops| && Tracks(times, admitted, ops[..i], allowed)
    ensures Tracks(NotedIf(times, ops[i], true), NotedIf(admitted, ops[i], yes), ops[..i + 1], allowed + [yes])
  {
    hide RequestsOf, LetThrough, NotedIf, TimesOf, NowOf;
    OneMoreOp(ops, allowed, i, yes);
    forall key ensures TimesOf(NotedIf(times, ops[i], true), key) == RequestsOf(ops[..i + 1], key) {
      NotedForKey(times, ops[i], true, key);
    }
    forall key ensures TimesOf(NotedIf(admitted, ops[i], yes), key) == LetThrough(ops[..i + 1], allowed + [yes], key) {
      NotedForKey(admitted, ops[i], yes, key);
    }
  }

  lemma TrackedAsAlone(
    max: int, windowMs: int, times: map<string, seq<int>>, admitted: map<string, seq<int>>, ops: seq<Op>,
    allowed: seq<bool>, lost: set<string>)
    requires Tracks(times, admitted, ops, allowed) && AdmittedAsAlone(max, windowMs, times, admitted, lost)
    ensures forall key :: key !in lost ==>
      LetThrough(ops, allowed, key) == Admitted(max, windowMs, RequestsOf(ops, key))
  {
    hide RequestsOf, LetThrough, Admitted;
    forall key | key !in lost ensures LetThrough(ops, allowed, key) == Admitted(max, windowMs, RequestsOf(ops, key)) {
      assert TimesOf(times, key) == RequestsOf(ops, key);
    }
  }

  lemma NoOps()
    ensures Tracks(map[], map[], [], [])
  {
  }
}
