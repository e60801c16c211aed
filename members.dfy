/** A JavaScript `Map` keyed by strings, as its insertion-ordered list of entries.
    `set` on a present key overwrites the entry where it stands; on a new key it
    appends; `delete` removes the entry and keeps the others in order; `keys().next()`
    is the first entry. */
module Members {
  import opened Common

  datatype Entry<V> = Entry(key: string, val: V)

  /** `map.has(k)`. */
  predicate HasKey<V>(es: seq<Entry<V>>, k: string) {
    es != [] && (es[0].key == k || HasKey(es[1..], k))
  }

  /** No key occurs twice, as in every JavaScript `Map`. */
  predicate DistinctKeys<V>(es: seq<Entry<V>>) {
    es == [] || (!HasKey(es[1..], es[0].key) && DistinctKeys(es[1..]))
  }

  /** `HasKey` is membership of the key at some position. */
  lemma {:induction false} HasKeyIff<V>(es: seq<Entry<V>>, k: string)
    ensures HasKey(es, k) <==> exists i :: 0 <= i < |es| && es[i].key == k
  {
    if es != [] {
      HasKeyIff(es[1..], k);
      if exists i :: 0 <= i < |es| && es[i].key == k {
        var i :| 0 <= i < |es| && es[i].key == k;
        if i > 0 { assert es[1..][i - 1].key == k; }
      }
      if HasKey(es[1..], k) {
        var i :| 0 <= i < |es[1..]| && es[1..][i].key == k;
        assert es[i + 1].key == k;
      }
    }
  }

  /** Distinct keys, stated position by position. */
  lemma {:induction false} DistinctAt<V>(es: seq<Entry<V>>, i: nat, j: nat)
    requires DistinctKeys(es) && i < j < |es|
    ensures es[i].key != es[j].key
  {
    if i == 0 {
      HasKeyIff(es[1..], es[0].key);
      assert es[1..][j - 1] == es[j];
    } else {
      DistinctAt(es[1..], i - 1, j - 1);
    }
  }

  /** Position of the first entry with key `k`. */
  function IndexOf<V>(es: seq<Entry<V>>, k: string): (r: nat)
    requires HasKey(es, k)
    ensures r < |es| && es[r].key == k
    ensures forall j :: 0 <= j < r ==> es[j].key != k
  {
    if es[0].key == k then 0 else 1 + IndexOf(es[1..], k)
  }

  /** `map.get(k)`. */
  function Get<V>(es: seq<Entry<V>>, k: string): (r: Option<V>)
    ensures r.Some? <==> HasKey(es, k)
    ensures r.Some? ==> es[IndexOf(es, k)].val == r.value
  {
    if es == [] then None
    else if es[0].key == k then Some(es[0].val)
    else Get(es[1..], k)
  }

  /** `map.set(k, v)`. */
  function Put<V>(es: seq<Entry<V>>, k: string, v: V): (r: seq<Entry<V>>)
    ensures |r| == if HasKey(es, k) then |es| else |es| + 1
  {
    if es == [] then [Entry(k, v)]
    else if es[0].key == k then [Entry(k, v)] + es[1..]
    else [es[0]] + Put(es[1..], k, v)
  }

  /** Setting a present key overwrites its entry in place: the entry at the key's
      position is replaced and every other entry stays where it was. */
  lemma {:induction false} PutPresent<V>(es: seq<Entry<V>>, k: string, v: V)
    requires HasKey(es, k)
    ensures var r, p := Put(es, k, v), IndexOf(es, k);
      && |r| == |es|
      && r[p] == Entry(k, v)
      && forall j :: 0 <= j < |es| && j != p ==> r[j] == es[j]
  {
    if es[0].key != k {
      PutPresent(es[1..], k, v);
      var r, p := Put(es, k, v), IndexOf(es, k);
      forall j | 0 <= j < |es| && j != p ensures r[j] == es[j] {
        if j > 0 { assert r[j] == Put(es[1..], k, v)[j - 1]; }
      }
    }
  }

  /** Setting an absent key appends a new entry at the end. */
  lemma {:induction false} PutAbsent<V>(es: seq<Entry<V>>, k: string, v: V)
    requires !HasKey(es, k)
    ensures Put(es, k, v) == es + [Entry(k, v)]
  {
    if es != [] {
      PutAbsent(es[1..], k, v);
      assert [es[0]] + (es[1..] + [Entry(k, v)]) == es + [Entry(k, v)];
    }
  }

  /** After `set`, the keys are the old keys plus `k`. */
  lemma {:induction false} PutHasKey<V>(es: seq<Entry<V>>, k: string, v: V, x: string)
    ensures HasKey(Put(es, k, v), x) <==> HasKey(es, x) || x == k
  {
    if es != [] && es[0].key != k {
      PutHasKey(es[1..], k, v, x);
    }
  }

  /** `set` keeps the keys distinct. */
  lemma {:induction false} PutDistinct<V>(es: seq<Entry<V>>, k: string, v: V)
    requires DistinctKeys(es)
    ensures DistinctKeys(Put(es, k, v))
  {
    if es != [] && es[0].key != k {
      PutDistinct(es[1..], k, v);
      PutHasKey(es[1..], k, v, es[0].key);
      assert Put(es, k, v)[1..] == Put(es[1..], k, v);
    } else if es != [] {
      assert Put(es, k, v)[1..] == es[1..];
    }
  }

  /** After `set`, `get` sees the new value at `k` and the old values elsewhere. */
  lemma {:induction false} PutGet<V>(es: seq<Entry<V>>, k: string, v: V, x: string)
    ensures Get(Put(es, k, v), x) == if x == k then Some(v) else Get(es, x)
  {
    if es != [] && es[0].key != k {
      PutGet(es[1..], k, v, x);
      assert Put(es, k, v)[1..] == Put(es[1..], k, v);
    } else if es != [] {
      assert Put(es, k, v)[1..] == es[1..];
    }
  }

  /** `map.delete(k)`. */
  function Remove<V>(es: seq<Entry<V>>, k: string): (r: seq<Entry<V>>)
    ensures |r| <= |es|
  {
    if es == [] then []
    else if es[0].key == k then Remove(es[1..], k)
    else [es[0]] + Remove(es[1..], k)
  }

  /** After `delete`, the keys are the old keys without `k`. */
  lemma {:induction false} RemoveHasKey<V>(es: seq<Entry<V>>, k: string, x: string)
    ensures HasKey(Remove(es, k), x) <==> HasKey(es, x) && x != k
  {
    if es != [] {
      RemoveHasKey(es[1..], k, x);
      if es[0].key != k {
        assert Remove(es, k)[1..] == Remove(es[1..], k);
      }
    }
  }

  /** `delete` keeps the keys distinct. */
  lemma {:induction false} RemoveDistinct<V>(es: seq<Entry<V>>, k: string)
    requires DistinctKeys(es)
    ensures DistinctKeys(Remove(es, k))
  {
    if es != [] {
      RemoveDistinct(es[1..], k);
      if es[0].key != k {
        RemoveHasKey(es[1..], k, es[0].key);
        assert Remove(es, k)[1..] == Remove(es[1..], k);
      }
    }
  }

  /** Deleting an absent key changes nothing. */
  lemma {:induction false} RemoveAbsent<V>(es: seq<Entry<V>>, k: string)
    requires !HasKey(es, k)
    ensures Remove(es, k) == es
  {
    if es != [] {
      RemoveAbsent(es[1..], k);
    }
  }

  /** In a map (distinct keys) deleting a present key cuts out exactly that entry:
      the entries before and after it stay, in their order. */
  lemma {:induction false} RemoveAt<V>(es: seq<Entry<V>>, k: string)
    requires DistinctKeys(es) && HasKey(es, k)
    ensures var p := IndexOf(es, k); Remove(es, k) == es[..p] + es[p + 1..]
  {
    if es[0].key == k {
      RemoveAbsent(es[1..], k);
    } else {
      RemoveAt(es[1..], k);
      var p := IndexOf(es, k);
      assert es[..p] == [es[0]] + es[1..][..p - 1];
      assert es[p + 1..] == es[1..][p..];
    }
  }

  /** After deleting `k`, the first remaining entry is the earliest-inserted entry
      whose key is not `k`: everything before it in the old map had key `k`. */
  lemma {:induction false} RemoveFirstRemaining<V>(es: seq<Entry<V>>, k: string)
    requires Remove(es, k) != []
    ensures exists i :: 0 <= i < |es| && es[i] == Remove(es, k)[0]
              && es[i].key != k && forall j :: 0 <= j < i ==> es[j].key == k
  {
    if es[0].key == k {
      RemoveFirstRemaining(es[1..], k);
      var i :| 0 <= i < |es[1..]| && es[1..][i] == Remove(es[1..], k)[0]
                && es[1..][i].key != k && forall j :: 0 <= j < i ==> es[1..][j].key == k;
      assert es[i + 1] == Remove(es, k)[0];
      forall j | 0 <= j < i + 1 ensures es[j].key == k {
        if j > 0 { assert es[1..][j - 1] == es[j]; }
      }
    } else {
      assert es[0] == Remove(es, k)[0];
    }
  }
}
