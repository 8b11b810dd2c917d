/** An IndexedDB object store with an in-line key: its records held in
    ascending key order, which is also the order `getAll` returns them in.
    `key` extracts a record's key (the `keyPath` of the store). */
module Store {
  import opened Wrappers
  import opened Seqs

  /** Keys strictly ascend, so no key is held twice. */
  predicate Ascending<T>(s: seq<T>, key: T -> int) {
    forall i, j :: 0 <= i < j < |s| ==> key(s[i]) < key(s[j])
  }

  /** All keys of the store lie below `bound`. */
  predicate KeysBelow<T>(s: seq<T>, key: T -> int, bound: int) {
    forall i :: 0 <= i < |s| ==> key(s[i]) < bound
  }

  /** `store.get(k)`: the record under key k, if any. */
  function Get<T>(s: seq<T>, key: T -> int, k: int): (r: Option<T>)
    ensures r.Some? ==> r.value in s && key(r.value) == k
    ensures r.None? <==> forall i :: 0 <= i < |s| ==> key(s[i]) != k
  {
    if s == [] then None
    else if key(s[0]) == k then Some(s[0])
    else Get(s[1..], key, k)
  }

  /** `store.put(r)`: replace the record under r's key, or insert r in key order. */
  function Put<T>(s: seq<T>, key: T -> int, r: T): seq<T> {
    if s == [] then [r]
    else if key(s[0]) == key(r) then [r] + s[1..]
    else if key(r) < key(s[0]) then [r] + s
    else [s[0]] + Put(s[1..], key, r)
  }

  /** `store.delete(k)`: drop the record under key k; a missing key changes nothing. */
  function Remove<T>(s: seq<T>, key: T -> int, k: int): seq<T> {
    if s == [] then []
    else if key(s[0]) == k then Remove(s[1..], key, k)
    else [s[0]] + Remove(s[1..], key, k)
  }

  /** Put behaves as a map update: r is found under its key, every other
      key reads as before, and the key order is kept. */
  lemma PutGet<T>(s: seq<T>, key: T -> int, r: T)
    ensures Get(Put(s, key, r), key, key(r)) == Some(r)
    ensures forall k :: k != key(r) ==> Get(Put(s, key, r), key, k) == Get(s, key, k)
    ensures Ascending(s, key) ==> Ascending(Put(s, key, r), key)
  {
    PutFinds(s, key, r);
    forall k | k != key(r)
      ensures Get(Put(s, key, r), key, k) == Get(s, key, k)
    {
      PutKeepsOthers(s, key, r, k);
    }
    if Ascending(s, key) {
      PutAscending(s, key, r);
    }
  }

  lemma {:induction false} PutFinds<T>(s: seq<T>, key: T -> int, r: T)
    ensures Get(Put(s, key, r), key, key(r)) == Some(r)
  {
    if s != [] && key(s[0]) != key(r) && key(s[0]) < key(r) {
      PutFinds(s[1..], key, r);
      assert Put(s, key, r)[1..] == Put(s[1..], key, r);
    }
  }

  lemma {:induction false} PutKeepsOthers<T>(s: seq<T>, key: T -> int, r: T, k: int)
    requires k != key(r)
    ensures Get(Put(s, key, r), key, k) == Get(s, key, k)
  {
    var t := Put(s, key, r);
    if s != [] && key(s[0]) != key(r) && key(s[0]) < key(r) {
      if key(s[0]) != k {
        PutKeepsOthers(s[1..], key, r, k);
        assert t[1..] == Put(s[1..], key, r);
      }
    } else if s != [] && key(s[0]) == key(r) {
      assert t[1..] == s[1..];
    } else if s != [] {
      assert t[1..] == s;
    }
  }

  lemma {:induction false} PutAscending<T>(s: seq<T>, key: T -> int, r: T)
    requires Ascending(s, key)
    ensures Ascending(Put(s, key, r), key)
  {
    var t := Put(s, key, r);
    if s != [] && key(s[0]) != key(r) && key(s[0]) < key(r) {
      assert Ascending(s[1..], key);
      PutAscending(s[1..], key, r);
      assert t == [s[0]] + Put(s[1..], key, r);
      forall j | 0 < j < |t|
        ensures key(t[0]) < key(t[j])
      {
        assert t[j] == Put(s[1..], key, r)[j - 1];
        PutMembers(s[1..], key, r, j - 1);
      }
    } else if s != [] && key(s[0]) == key(r) {
      assert t[1..] == s[1..];
    } else if s != [] {
      assert t[1..] == s;
    }
  }

  /** Every record of Put(s, key, r) is r or a record of s. */
  lemma {:induction false} PutMembers<T>(s: seq<T>, key: T -> int, r: T, j: int)
    requires 0 <= j < |Put(s, key, r)|
    ensures Put(s, key, r)[j] == r || Put(s, key, r)[j] in s
  {
    if s != [] && key(s[0]) != key(r) && key(s[0]) < key(r) && j > 0 {
      PutMembers(s[1..], key, r, j - 1);
    }
  }

  /** A record whose key is above every key already stored goes last:
      this is how `add` appends under a generated key. */
  lemma {:induction false} PutAbove<T>(s: seq<T>, key: T -> int, r: T)
    requires KeysBelow(s, key, key(r))
    ensures Put(s, key, r) == s + [r]
  {
    if s != [] {
      PutAbove(s[1..], key, r);
      assert s == [s[0]] + s[1..];
    }
  }

  /** Remove behaves as a map deletion and keeps the key order. */
  lemma {:induction false} RemoveGet<T>(s: seq<T>, key: T -> int, k: int)
    ensures Get(Remove(s, key, k), key, k) == None
    ensures forall k' :: k' != k ==> Get(Remove(s, key, k), key, k') == Get(s, key, k')
    ensures Ascending(s, key) ==> Ascending(Remove(s, key, k), key)
  {
    if s != [] {
      RemoveGet(s[1..], key, k);
      var t := Remove(s, key, k);
      if key(s[0]) != k {
        assert t[1..] == Remove(s[1..], key, k);
        if Ascending(s, key) {
          assert Ascending(s[1..], key);
          forall j | 0 < j < |t|
            ensures key(t[0]) < key(t[j])
          {
            RemoveMembers(s[1..], key, k, j - 1);
          }
        }
      } else if Ascending(s, key) {
        assert Ascending(s[1..], key);
      }
    }
  }

  /** Every record of Remove(s, key, k) is a record of s. */
  lemma {:induction false} RemoveMembers<T>(s: seq<T>, key: T -> int, k: int, j: int)
    requires 0 <= j < |Remove(s, key, k)|
    ensures Remove(s, key, k)[j] in s
  {
    if s != [] {
      if key(s[0]) == k {
        RemoveMembers(s[1..], key, k, j);
      } else if j > 0 {
        RemoveMembers(s[1..], key, k, j - 1);
      }
    }
  }

  /** Deleting a key no record holds changes nothing. */
  lemma {:induction false} RemoveAbsent<T>(s: seq<T>, key: T -> int, k: int)
    requires forall i :: 0 <= i < |s| ==> key(s[i]) != k
    ensures Remove(s, key, k) == s
  {
    if s != [] {
      RemoveAbsent(s[1..], key, k);
      assert s == [s[0]] + s[1..];
    }
  }

  lemma {:induction false} RemoveAppend<T>(a: seq<T>, b: seq<T>, key: T -> int, k: int)
    ensures Remove(a + b, key, k) == Remove(a, key, k) + Remove(b, key, k)
  {
    if a == [] {
      assert a + b == b;
    } else {
      assert (a + b)[0] == a[0];
      assert (a + b)[1..] == a[1..] + b;
      RemoveAppend(a[1..], b, key, k);
    }
  }

  /** Put and Remove keep every key below a bound the new record's key is below. */
  lemma PutKeysBelow<T>(s: seq<T>, key: T -> int, r: T, bound: int)
    requires KeysBelow(s, key, bound) && key(r) < bound
    ensures KeysBelow(Put(s, key, r), key, bound)
  {
    forall j | 0 <= j < |Put(s, key, r)|
      ensures key(Put(s, key, r)[j]) < bound
    {
      PutMembers(s, key, r, j);
    }
  }

  lemma RemoveKeysBelow<T>(s: seq<T>, key: T -> int, k: int, bound: int)
    requires KeysBelow(s, key, bound)
    ensures KeysBelow(Remove(s, key, k), key, bound)
  {
    forall j | 0 <= j < |Remove(s, key, k)|
      ensures key(Remove(s, key, k)[j]) < bound
    {
      RemoveMembers(s, key, k, j);
    }
  }
}
