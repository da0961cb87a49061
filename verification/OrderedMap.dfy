// Maps that iterate in insertion order, as sequences of slots with distinct keys.
module OrderedMap {
  import opened Wrappers

  datatype Slot<K, V> = Slot(key: K, value: V)

  ghost predicate Distinct<K, V>(slots: seq<Slot<K, V>>) {
    forall i, j :: 0 <= i < j < |slots| ==> slots[i].key != slots[j].key
  }

  function IndexOf<K(==), V>(slots: seq<Slot<K, V>>, key: K): (i: nat)
    ensures i <= |slots|
    ensures i < |slots| ==> slots[i].key == key
    ensures forall j :: 0 <= j < i ==> slots[j].key != key
  {
    if slots == [] || slots[0].key == key then 0 else 1 + IndexOf(slots[1..], key)
  }

  // map.get
  function Lookup<K(==), V>(slots: seq<Slot<K, V>>, key: K): Option<V> {
    var i := IndexOf(slots, key);
    if i < |slots| then Some(slots[i].value) else None
  }

  // map.delete
  function Without<K(==), V>(slots: seq<Slot<K, V>>, key: K): seq<Slot<K, V>> {
    var i := IndexOf(slots, key);
    if i < |slots| then slots[..i] + slots[i + 1..] else slots
  }

  ghost predicate HasKey<K, V>(slots: seq<Slot<K, V>>, key: K) {
    exists i :: 0 <= i < |slots| && slots[i].key == key
  }

  lemma LookupFinds<K, V>(slots: seq<Slot<K, V>>, key: K)
    ensures Lookup(slots, key).Some? <==> HasKey(slots, key)
  {
  }

  lemma LookupAt<K, V>(slots: seq<Slot<K, V>>, i: nat)
    requires Distinct(slots) && i < |slots|
    ensures Lookup(slots, slots[i].key) == Some(slots[i].value)
  {
  }

  lemma RemovingOne<K, V>(slots: seq<Slot<K, V>>, i: nat)
    requires Distinct(slots) && i < |slots|
    ensures
      var r := slots[..i] + slots[i + 1..];
      && Distinct(r) && !HasKey(r, slots[i].key)
      && forall key :: key != slots[i].key ==> Lookup(r, key) == Lookup(slots, key)
  {
    var r := slots[..i] + slots[i + 1..];
    assert forall j :: 0 <= j < |r| ==> r[j] == if j < i then slots[j] else slots[j + 1];
    forall key | key != slots[i].key ensures Lookup(r, key) == Lookup(slots, key) {
      var j := IndexOf(slots, key);
      if j < |slots| {
        LookupAt(r, if j < i then j else j - 1);
      }
    }
  }

  // A slot set anew goes last.
  lemma SettingOne<K, V>(slots: seq<Slot<K, V>>, key: K, value: V)
    requires Distinct(slots)
    ensures
      var r := Without(slots, key) + [Slot(key, value)];
      && Distinct(r) && Lookup(r, key) == Some(value)
      && forall k :: k != key ==> Lookup(r, k) == Lookup(slots, k)
  {
    hide Without;
    var kept := Without(slots, key);
    var r := kept + [Slot(key, value)];
    DeletingOne(slots, key);
    LookupAt(r, |kept|);
    forall k | k != key ensures Lookup(r, k) == Lookup(kept, k) {
      if IndexOf(kept, k) < |kept| {
        LookupAt(r, IndexOf(kept, k));
      }
    }
  }

  lemma DeletingOne<K, V>(slots: seq<Slot<K, V>>, key: K)
    requires Distinct(slots)
    ensures Distinct(Without(slots, key)) && !HasKey(Without(slots, key), key)
    ensures forall k :: k != key ==> Lookup(Without(slots, key), k) == Lookup(slots, k)
  {
    hide Distinct;
    if IndexOf(slots, key) < |slots| {
      RemovingOne(slots, IndexOf(slots, key));
    }
  }
}
