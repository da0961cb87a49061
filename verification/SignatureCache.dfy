// The tool-signature cache of OpenAiCompatibleProvider: bounded in entries, bytes and age.
module SignatureCache {
  import opened Wrappers
  import opened Text
  import opened OrderedMap

  const MAX_ENTRIES := 128
  const MAX_BYTES := 1048576
  const LIFETIME := 300000

  datatype Signature = Signature(signature: string, name: string, argumentsHash: string, expires: int)

  type Entries = seq<Slot<string, Signature>>

  function Size(slot: Slot<string, Signature>): nat {
    ByteLength(slot.value.signature)
  }

  function Total(entries: Entries): nat {
    if entries == [] then 0 else Size(entries[0]) + Total(entries[1..])
  }

  lemma {:induction false} TotalAppend(a: Entries, b: Entries)
    ensures Total(a + b) == Total(a) + Total(b)
  {
    if a == [] {
      assert a + b == b;
    } else {
      TotalAppend(a[1..], b);
      assert (a + b)[1..] == a[1..] + b;
    }
  }

  lemma TotalWithout(entries: Entries, i: nat)
    requires i < |entries|
    ensures Total(entries) == Size(entries[i]) + Total(entries[..i] + entries[i + 1..])
  {
    TotalAppend(entries[..i], entries[i..]);
    TotalAppend(entries[..i], entries[i + 1..]);
    assert entries[..i] + entries[i..] == entries;
  }

  ghost predicate Fits(entries: Entries) {
    |entries| <= MAX_ENTRIES && Total(entries) <= MAX_BYTES
  }

  // Inserted in the order of their expiry.
  ghost predicate SortedByExpiry(entries: Entries) {
    forall i, j :: 0 <= i <= j < |entries| ==> entries[i].value.expires <= entries[j].value.expires
  }

  // The entries expired at one instant are the oldest ones.
  lemma {:induction false} ExpiredEntriesFormAPrefix(entries: Entries, now: int) returns (k: nat)
    requires SortedByExpiry(entries)
    ensures k <= |entries|
    ensures forall i :: 0 <= i < |entries| ==> (entries[i].value.expires <= now <==> i < k)
  {
    k := 0;
    while k < |entries| && entries[k].value.expires <= now
      invariant k <= |entries|
      invariant forall i :: 0 <= i < k ==> entries[i].value.expires <= now
    {
      k := k + 1;
    }
  }

  // What pruneSignatures leaves when the i-th entry is compared with the i-th reading.
  function Unexpired(entries: Entries, times: seq<int>): Entries
    requires |times| >= |entries|
  {
    if entries == [] then []
    else
      var n := |entries| - 1;
      Unexpired(entries[..n], times) +
      (if entries[n].value.expires <= times[n] then [] else [entries[n]])
  }

  // What was expired at the first reading goes, what is not expired at the last one stays.
  lemma {:induction false} PruningRespectsTheClock(entries: Entries, times: seq<int>, from: int, to: int)
    requires |times| >= |entries| && forall i :: 0 <= i < |times| ==> from <= times[i] <= to
    ensures forall e :: e in Unexpired(entries, times) ==> e in entries && e.value.expires > from
    ensures forall e :: e in entries && e.value.expires > to ==> e in Unexpired(entries, times)
  {
    if entries != [] {
      PruningRespectsTheClock(entries[..|entries| - 1], times, from, to);
    }
  }

  // The loop of pruneSignatures after n entries, at the i-th one left.
  ghost predicate Pruning(entries: Entries, i: nat, original: Entries, times: seq<int>, n: nat)
    requires |times| >= |original|
  {
    && n <= |original| && i == |Unexpired(original[..n], times)|
    && entries == Unexpired(original[..n], times) + original[n..]
  }

  lemma NothingPruned(original: Entries, times: seq<int>)
    requires |times| >= |original|
    ensures Pruning(original, 0, original, times, 0)
  {
  }

  lemma AllPruned(entries: Entries, i: nat, original: Entries, times: seq<int>, n: nat)
    requires |times| >= |original| && Pruning(entries, i, original, times, n) && i == |entries|
    ensures entries == Unexpired(original, times)
  {
    assert original[..n] == original;
  }

  lemma PruneOne(entries: Entries, i: nat, original: Entries, times: seq<int>, n: nat)
    requires |times| >= |original| && Pruning(entries, i, original, times, n) && i < |entries|
    ensures entries[i] == original[n]
    ensures
      if entries[i].value.expires <= times[n] then Pruning(entries[..i] + entries[i + 1..], i, original, times, n + 1)
      else Pruning(entries, i + 1, original, times, n + 1)
  {
    var kept := Unexpired(original[..n], times);
    assert original[..n + 1][..n] == original[..n];
    assert original[n..] == [original[n]] + original[n + 1..];
    assert entries[..i] == kept && entries[i + 1..] == original[n + 1..];
  }

  // entries[k..] is the longest suffix that fits.
  ghost predicate IsLongestFit(entries: Entries, k: int) {
    && 0 <= k <= |entries| && Fits(entries[k..])
    && forall j :: 0 <= j < k ==> !Fits(entries[j..])
  }

  lemma LongestFitIsUnique(entries: Entries, k: int, k': int)
    requires IsLongestFit(entries, k) && IsLongestFit(entries, k')
    ensures k == k'
  {
  }

  lemma NoBytes()
    ensures Total([]) == 0
  {
  }

  lemma TotalOne(slot: Slot<string, Signature>)
    ensures Total([slot]) == Size(slot)
  {
  }

  lemma {:induction false} TotalOfSuffix(entries: Entries, k: nat)
    requires k <= |entries|
    ensures Total(entries[k..]) <= Total(entries)
  {
    TotalAppend(entries[..k], entries[k..]);
    assert entries[..k] + entries[k..] == entries;
  }

  // The newest entry is kept exactly when it fits by itself.
  lemma LastIsKept(all: Entries, k: nat)
    requires all != [] && Distinct(all) && IsLongestFit(all, k)
    ensures
      var last := all[|all| - 1];
      Lookup(all[k..], last.key) == if Size(last) <= MAX_BYTES then Some(last.value) else None
  {
    hide Total, Lookup;
    var n := |all| - 1;
    TotalOne(all[n]);
    assert all[n..] == [all[n]];
    LookupFinds(all[k..], all[n].key);
    if k <= n {
      TotalOfSuffix(all[k..], n - k);
      assert all[k..][n - k..] == all[n..];
      LookupAt(all[k..], n - k);
    } else {
      assert !Fits(all[n..]);
    }
  }

  lemma RemovingAnEntry(entries: Entries, i: nat)
    requires i < |entries| && Distinct(entries)
    ensures
      var r := entries[..i] + entries[i + 1..];
      Distinct(r) && !HasKey(r, entries[i].key) && Total(r) == Total(entries) - Size(entries[i])
  {
    hide Total, Distinct, HasKey, Lookup;
    RemovingOne(entries, i);
    TotalWithout(entries, i);
  }

  // ---- order of expiry, as long as the clock does not step back ----

  // Inserted in the order of their expiry, none later than a full lifetime from now.
  ghost predicate Ordered(entries: Entries, now: int) {
    && SortedByExpiry(entries)
    && forall i :: 0 <= i < |entries| ==> entries[i].value.expires <= now + LIFETIME
  }

  lemma {:induction false} PruningKeepsTheOrder(entries: Entries, times: seq<int>, clock: int)
    requires |times| >= |entries| && Ordered(entries, clock)
    ensures Ordered(Unexpired(entries, times), clock)
  {
    if entries != [] {
      var n := |entries| - 1;
      PruningKeepsTheOrder(entries[..n], times, clock);
      forall e | e in Unexpired(entries[..n], times) ensures e.value.expires <= entries[n].value.expires {
        UnexpiredIsThere(entries[..n], times, e);
        var i :| 0 <= i < n && entries[i] == e;
      }
      AddingLast(Unexpired(entries[..n], times), entries[n], clock);
    }
  }

  lemma {:induction false} UnexpiredIsThere(entries: Entries, times: seq<int>, e: Slot<string, Signature>)
    requires |times| >= |entries| && e in Unexpired(entries, times)
    ensures e in entries
  {
    var n := |entries| - 1;
    if e in Unexpired(entries[..n], times) {
      UnexpiredIsThere(entries[..n], times, e);
    }
  }

  lemma AddingLast(entries: Entries, last: Slot<string, Signature>, now: int)
    requires Ordered(entries, now) && last.value.expires <= now + LIFETIME
    requires forall e :: e in entries ==> e.value.expires <= last.value.expires
    ensures Ordered(entries + [last], now)
  {
    forall i | 0 <= i < |entries| ensures entries[i].value.expires <= last.value.expires {
      assert entries[i] in entries;
    }
  }

  lemma DeletingKeepsTheOrder(entries: Entries, key: string, clock: int)
    requires Ordered(entries, clock)
    ensures Ordered(Without(entries, key), clock)
  {
    var i, r := IndexOf(entries, key), Without(entries, key);
    assert forall j :: 0 <= j < |r| ==> r[j] == if i == |entries| || j < i then entries[j] else entries[j + 1];
  }

  // Whatever an insertion evicts, the entries stay sorted if the clock readings of the
  // call, in order, are not before those of the calls before.
  lemma RenewingKeepsTheOrder(
    entries: Entries, times: seq<int>, key: string, value: Signature, clock: int, now: int, k: nat)
    requires |times| >= |entries| && Ordered(entries, clock) && clock <= now && value.expires == now + LIFETIME
    requires k <= |Renewed(entries, times, key, value)|
    ensures Ordered(Renewed(entries, times, key, value)[k..], now)
  {
    hide Unexpired, Without;
    PruningKeepsTheOrder(entries, times, clock);
    DeletingKeepsTheOrder(Unexpired(entries, times), key, clock);
    var kept := Without(Unexpired(entries, times), key);
    forall e | e in kept ensures e.value.expires <= value.expires {
      var i :| 0 <= i < |kept| && kept[i] == e;
    }
    AddingLast(kept, Slot(key, value), now);
  }

  // What an insertion is applied to before the eviction.
  function Renewed(entries: Entries, times: seq<int>, key: string, value: Signature): Entries
    requires |times| >= |entries|
  {
    Without(Unexpired(entries, times), key) + [Slot(key, value)]
  }

  // ---- the cache ----

  class Cache {
    var toolSignatures: Entries
    var signatureBytes: int

    // The counter is the sum of the sizes.
    ghost predicate Counted()
      reads `toolSignatures, `signatureBytes
    {
      Distinct(toolSignatures) && signatureBytes == Total(toolSignatures)
    }

    ghost predicate Valid()
      reads this
    {
      Counted() && Fits(toolSignatures)
    }

    constructor ()
      ensures Valid() && toolSignatures == []
    {
      toolSignatures, signatureBytes := [], 0;
    }

    // map.delete of the i-th entry, with its bytes.
    method RemoveAt(i: nat)
      requires Counted() && i < |toolSignatures|
      modifies `toolSignatures, `signatureBytes
      ensures Counted() && !HasKey(toolSignatures, old(toolSignatures)[i].key)
      ensures toolSignatures == old(toolSignatures)[..i] + old(toolSignatures)[i + 1..]
    {
      hide Distinct, HasKey, Total;
      RemovingAnEntry(toolSignatures, i);
      signatureBytes := signatureBytes - Size(toolSignatures[i]);
      toolSignatures := toolSignatures[..i] + toolSignatures[i + 1..];
    }

    // Deleting while iterating, each entry at its own clock reading.
    method PruneSignatures(times: seq<int>)
      requires Counted() && |times| >= |toolSignatures|
      modifies `toolSignatures, `signatureBytes
      ensures Counted() && toolSignatures == Unexpired(old(toolSignatures), times)
    {
      hide Counted, HasKey, Pruning, Unexpired;
      var i, n := 0, 0;
      ghost var original := toolSignatures;
      NothingPruned(original, times);
      while i < |toolSignatures|
        invariant i <= |toolSignatures| && Counted() && Pruning(toolSignatures, i, original, times, n)
        decreases |toolSignatures| - i
      {
        var entry := toolSignatures[i];
        PruneOne(toolSignatures, i, original, times, n);
        if entry.value.expires <= times[n] {
          RemoveAt(i);
        } else {
          i := i + 1;
        }
        n := n + 1;
      }
      AllPruned(toolSignatures, i, original, times, n);
    }

    method Delete(key: string)
      requires Counted()
      modifies `toolSignatures, `signatureBytes
      ensures Counted() && !HasKey(toolSignatures, key)
      ensures toolSignatures == Without(old(toolSignatures), key)
    {
      hide Counted;
      var i := IndexOf(toolSignatures, key);
      if i < |toolSignatures| {
        RemoveAt(i);
      }
    }

    method Append(key: string, value: Signature)
      requires Counted() && !HasKey(toolSignatures, key)
      modifies `toolSignatures, `signatureBytes
      ensures Counted() && toolSignatures == old(toolSignatures) + [Slot(key, value)]
    {
      hide Total, Lookup;
      TotalAppend(toolSignatures, [Slot(key, value)]);
      TotalOne(Slot(key, value));
      toolSignatures := toolSignatures + [Slot(key, value)];
      signatureBytes := signatureBytes + ByteLength(value.signature);
    }

    // The loop never reads from an empty map: an empty one has no bytes left.
    method EvictOldest()
      requires Counted()
      modifies `toolSignatures, `signatureBytes
      ensures Valid() && |toolSignatures| <= |old(toolSignatures)|
      ensures IsLongestFit(old(toolSignatures), |old(toolSignatures)| - |toolSignatures|)
      ensures toolSignatures == old(toolSignatures)[|old(toolSignatures)| - |toolSignatures|..]
    {
      hide Distinct, HasKey, Total, Lookup;
      NoBytes();
      ghost var all, k := toolSignatures, 0;
      while |toolSignatures| > MAX_ENTRIES || signatureBytes > MAX_BYTES
        invariant 0 <= k <= |all| && toolSignatures == all[k..]
        invariant Counted()
        invariant forall j :: 0 <= j < k ==> !Fits(all[j..])
        decreases |toolSignatures|
      {
        RemoveAt(0);
        k := k + 1;
      }
    }

    // A new or renewed entry goes last; the oldest ones go until the rest fits.  Nothing
    // is evicted that still fits, and an entry that is too large by itself is not kept.
    method RememberSignature(
      key: string, signature: string, name: string, argumentsHash: string, times: seq<int>, now: int)
      requires Valid() && |times| >= |toolSignatures|
      modifies this
      ensures Valid()
      ensures
        var value := Signature(signature, name, argumentsHash, now + LIFETIME);
        var all := Renewed(old(toolSignatures), times, key, value);
        && |toolSignatures| <= |all|
        && IsLongestFit(all, |all| - |toolSignatures|)
        && toolSignatures == all[|all| - |toolSignatures|..]
        && Lookup(toolSignatures, key) == if ByteLength(signature) <= MAX_BYTES then Some(value) else None
    {
      hide Total, Distinct, ByteLength, Unexpired, Without, Lookup, Fits, HasKey;
      PruneSignatures(times);
      Delete(key);
      var value := Signature(signature, name, argumentsHash, now + LIFETIME);
      ghost var all := toolSignatures + [Slot(key, value)];
      Append(key, value);
      EvictOldest();
      LastIsKept(all, |all| - |toolSignatures|);
    }
  }

  // ---- whole runs ----

  datatype Op =
    | Prune(times: seq<int>)
    | Remember(times: seq<int>, now: int, key: string, signature: string, name: string, argumentsHash: string)

  // No insertion reads an earlier time than the insertions before it.
  ghost predicate Clocked(ops: seq<Op>) {
    forall i, j :: 0 <= i < j < |ops| && ops[i].Remember? && ops[j].Remember? ==> ops[i].now <= ops[j].now
  }

  // What one operation leaves.
  ghost predicate IsResult(before: Entries, op: Op, after: Entries)
    requires |op.times| >= |before|
  {
    match op
    case Prune(times) => after == Unexpired(before, times)
    case Remember(times, now, key, signature, name, argumentsHash) =>
      var all := Renewed(before, times, key, Signature(signature, name, argumentsHash, now + LIFETIME));
      |after| <= |all| && after == all[|all| - |after|..] && IsLongestFit(all, |all| - |after|)
  }

  // Sorted up to some insertion time, which no later insertion undercuts.
  ghost predicate SortedSoFar(entries: Entries, latest: int, ops: seq<Op>, k: nat) {
    && Ordered(entries, latest)
    && (entries != [] ==> forall j :: k <= j < |ops| && ops[j].Remember? ==> latest <= ops[j].now)
  }

  lemma StillSorted(before: Entries, latest: int, ops: seq<Op>, k: nat, after: Entries)
    requires k < |ops| && Clocked(ops) && |ops[k].times| >= |before|
    requires SortedSoFar(before, latest, ops, k) && IsResult(before, ops[k], after)
    ensures SortedSoFar(after, if ops[k].Remember? then ops[k].now else latest, ops, k + 1)
  {
    hide Unexpired, Without, SortedByExpiry;
    match ops[k]
    case Prune(times) =>
      PruningKeepsTheOrder(before, times, latest);
      NothingToPrune(times);
    case Remember(times, now, key, signature, name, argumentsHash) =>
      var value := Signature(signature, name, argumentsHash, now + LIFETIME);
      NothingIsOrdered(now);
      var clock := if before == [] then now else latest;
      RenewingKeepsTheOrder(before, times, key, value, clock, now, |Renewed(before, times, key, value)| - |after|);
  }

  lemma NothingToPrune(times: seq<int>)
    ensures Unexpired([], times) == []
  {
  }

  lemma NothingIsOrdered(now: int)
    ensures Ordered([], now)
  {
  }

  // Every operation leaves what it is to leave.  However the clock moves, the cache stays
  // within its bounds and the counter is the sum; if no insertion reads an earlier time,
  // the entries are sorted by expiry.
  method Run(ops: seq<Op>) returns (entries: Entries, counter: int, states: seq<Entries>)
    requires forall k :: 0 <= k < |ops| ==> |ops[k].times| >= MAX_ENTRIES
    ensures |states| == |ops| + 1 && states[0] == [] && states[|ops|] == entries
    ensures forall k :: 0 <= k < |ops| ==>
      |ops[k].times| >= |states[k]| && IsResult(states[k], ops[k], states[k + 1])
    ensures Distinct(entries) && counter == Total(entries) && Fits(entries)
    ensures Clocked(ops) ==> SortedByExpiry(entries)
  {
    hide Distinct, Total, SortedByExpiry, Clocked, SortedSoFar, IsResult;
    var cache := new Cache();
    ghost var latest := 0;
    NothingIsSorted(latest, ops);
    states := [cache.toolSignatures];
    for k := 0 to |ops|
      invariant cache.Valid() && fresh(cache)
      invariant |states| == k + 1 && states[0] == [] && states[k] == cache.toolSignatures
      invariant forall i :: 0 <= i < k ==>
        |ops[i].times| >= |states[i]| && IsResult(states[i], ops[i], states[i + 1])
      invariant Clocked(ops) ==> SortedSoFar(cache.toolSignatures, latest, ops, k)
    {
      ghost var before := cache.toolSignatures;
      Perform(cache, ops[k]);
      if Clocked(ops) {
        StillSorted(before, latest, ops, k, cache.toolSignatures);
      }
      states := states + [cache.toolSignatures];
      latest := if ops[k].Remember? then ops[k].now else latest;
    }
    entries, counter := cache.toolSignatures, cache.signatureBytes;
    if Clocked(ops) {
      SortedAfterAll(entries, latest, ops);
    }
  }

  lemma NothingIsSorted(latest: int, ops: seq<Op>)
    ensures SortedSoFar([], latest, ops, 0)
  {
  }

  lemma SortedAfterAll(entries: Entries, latest: int, ops: seq<Op>)
    requires SortedSoFar(entries, latest, ops, |ops|)
    ensures SortedByExpiry(entries)
  {
  }

  method Perform(cache: Cache, op: Op)
    requires cache.Valid() && |op.times| >= MAX_ENTRIES
    modifies cache
    ensures cache.Valid() && |old(cache.toolSignatures)| <= |op.times|
    ensures IsResult(old(cache.toolSignatures), op, cache.toolSignatures)
  {
    hide Distinct, Total, IsLongestFit, Unexpired, Without, Lookup, ByteLength, Renewed;
    match op
    case Prune(times) =>
      PruningFits(cache.toolSignatures, times);
      cache.PruneSignatures(times);
    case Remember(times, now, key, signature, name, argumentsHash) =>
      cache.RememberSignature(key, signature, name, argumentsHash, times, now);
  }

  lemma {:induction false} PruningFits(entries: Entries, times: seq<int>)
    requires |times| >= |entries|
    ensures |Unexpired(entries, times)| <= |entries| && Total(Unexpired(entries, times)) <= Total(entries)
  {
    if entries != [] {
      var n := |entries| - 1;
      PruningFits(entries[..n], times);
      TotalAppend(entries[..n], [entries[n]]);
      TotalAppend(Unexpired(entries[..n], times), [entries[n]]);
      assert Unexpired(entries[..n], times) + [] == Unexpired(entries[..n], times);
      assert entries == entries[..n] + [entries[n]];
    }
  }
}
