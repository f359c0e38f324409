/** Insertion-ordered dictionaries with FIFO eviction: the request caches of the capture lifecycle. */
module OrderedDict {
  import opened Prelude

  datatype Item<+V> = Item(key: string, value: V)

  function Find<V>(d: seq<Item<V>>, key: string): Option<V> {
    if d == [] then None
    else if d[0].key == key then Some(d[0].value)
    else Find(d[1..], key)
  }

  /** Overwrites in place, or appends a new key. */
  function Put<V>(d: seq<Item<V>>, key: string, value: V): seq<Item<V>> {
    if d == [] then [Item(key, value)]
    else if d[0].key == key then [Item(key, value)] + d[1..]
    else [d[0]] + Put(d[1..], key, value)
  }

  ghost function Keys<V>(d: seq<Item<V>>): set<string> {
    set i | 0 <= i < |d| :: d[i].key
  }

  lemma {:induction false} FindNone<V>(d: seq<Item<V>>, key: string)
    ensures Find(d, key).None? <==> forall i :: 0 <= i < |d| ==> d[i].key != key
  {
    if d != [] {
      FindNone(d[1..], key);
      assert forall i :: 1 <= i < |d| ==> d[i] == d[1..][i - 1];
    }
  }

  lemma FindIsKey<V>(d: seq<Item<V>>, key: string)
    ensures Find(d, key).Some? <==> key in Keys(d)
  {
    FindNone(d, key);
  }

  lemma {:induction false} PutKeys<V>(d: seq<Item<V>>, key: string, value: V)
    ensures Keys(Put(d, key, value)) == Keys(d) + {key}
  {
    var put := Put(d, key, value);
    if d == [] {
      assert put[0].key == key;
    } else if d[0].key == key {
      assert forall i :: 0 <= i < |d| ==> put[i].key == d[i].key;
    } else {
      PutKeys(d[1..], key, value);
      var rest := Put(d[1..], key, value);
      assert put[0] == d[0] && forall i :: 1 <= i < |put| ==> put[i] == rest[i - 1];
      assert forall i :: 1 <= i < |d| ==> d[i] == d[1..][i - 1];
      forall k | k in Keys(d) + {key} ensures k in Keys(put) {
        if k != d[0].key {
          assert k in Keys(d[1..]) + {key};
          var i :| 0 <= i < |rest| && rest[i].key == k;
          assert put[i + 1].key == k;
        } else {
          assert put[0].key == k;
        }
      }
      forall k | k in Keys(put) ensures k in Keys(d) + {key} {
        var i :| 0 <= i < |put| && put[i].key == k;
        if i > 0 {
          assert rest[i - 1].key in Keys(rest);
        }
      }
    }
  }

  lemma {:induction false} FindPut<V>(d: seq<Item<V>>, key: string, value: V)
    ensures Put(d, key, value) != []
    ensures Find(Put(d, key, value), key) == Some(value)
    ensures Find(d, key).None? ==> Put(d, key, value) == d + [Item(key, value)]
  {
    if d != [] && d[0].key != key {
      FindPut(d[1..], key, value);
      var put := Put(d, key, value);
      assert put[1..] == Put(d[1..], key, value);
    }
  }

  /** Stores a value, then forgets the oldest keys beyond `capacity`. */
  function Remember<V>(d: seq<Item<V>>, key: string, value: V, capacity: nat): seq<Item<V>> {
    LastN(Put(d, key, value), capacity)
  }

  lemma RememberKeys<V>(d: seq<Item<V>>, key: string, value: V, capacity: nat)
    ensures Keys(Remember(d, key, value, capacity)) <= Keys(d) + {key}
    ensures |Remember(d, key, value, capacity)| <= capacity
  {
    PutKeys(d, key, value);
    var put := Put(d, key, value);
    var kept := LastN(put, capacity);
    forall k | k in Keys(kept) ensures k in Keys(put) {
      var i :| 0 <= i < |kept| && kept[i].key == k;
      assert put[|put| - |kept| + i].key == k;
    }
  }

  /** A new key appended at the end is the one found. */
  lemma {:induction false} FindSuffix<V>(d: seq<Item<V>>, key: string, value: V)
    requires forall i :: 0 <= i < |d| ==> d[i].key != key
    ensures Find(d + [Item(key, value)], key) == Some(value)
  {
    if d == [] {
      assert d + [Item(key, value)] == [Item(key, value)];
    } else {
      FindSuffix(d[1..], key, value);
      assert (d + [Item(key, value)])[1..] == d[1..] + [Item(key, value)];
    }
  }

  lemma LastNOfAppend<T>(s: seq<T>, x: T, n: nat)
    requires n > 0
    ensures LastN(s + [x], n) == LastN(s, n - 1) + [x]
  {
  }

  lemma RememberFinds<V>(d: seq<Item<V>>, key: string, value: V, capacity: nat)
    requires Find(d, key).None? && capacity > 0
    ensures Find(Remember(d, key, value, capacity), key) == Some(value)
  {
    FindPut(d, key, value);
    LastNOfAppend(d, Item(key, value), capacity);
    FindNone(d, key);
    var older := LastN(d, capacity - 1);
    forall i | 0 <= i < |older| ensures older[i].key != key {
      assert older[i] == d[|d| - |older| + i];
    }
    FindSuffix(older, key, value);
  }
}
