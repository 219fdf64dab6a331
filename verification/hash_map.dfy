/** The ordered key/value map every partition of the container is stored in.

    A PHP array keeps its keys in insertion order, re-assigning an existing key
    keeps its position, and `unset` drops the key wherever it is; the model is a
    sequence of (key, value) entries with pairwise distinct keys. */
module HashMaps {
  import opened Wrappers

  type Entries<V> = seq<(string, V)>

  /** The value stored under `k`, or `None` when `k` is absent. */
  function Lookup<V>(es: Entries<V>, k: string): Option<V>
  {
    if |es| == 0 then None
    else if es[0].0 == k then Some(es[0].1)
    else Lookup(es[1..], k)
  }

  /** The keys, in storage order. */
  function KeysOf<V>(es: Entries<V>): (ks: seq<string>)
    ensures |ks| == |es|
  {
    if |es| == 0 then [] else [es[0].0] + KeysOf(es[1..])
  }

  /** The values, in storage order. */
  function ValuesOf<V>(es: Entries<V>): (vs: seq<V>)
    ensures |vs| == |es|
  {
    if |es| == 0 then [] else [es[0].1] + ValuesOf(es[1..])
  }

  /** No key occurs twice. */
  predicate Unique(ks: seq<string>)
  {
    |ks| == 0 || (ks[0] !in ks[1..] && Unique(ks[1..]))
  }

  /** A key is present exactly when it is one of the listed keys. */
  lemma {:induction false} LookupIffKey<V>(es: Entries<V>, k: string)
    ensures Lookup(es, k).Some? <==> k in KeysOf(es)
    decreases |es|
  {
    if |es| > 0 {
      LookupIffKey(es[1..], k);
    }
  }

  /** PHP `$a[$k] = $v`: overwrite in place when present, append otherwise. */
  function Put<V>(es: Entries<V>, k: string, v: V): (r: Entries<V>)
    ensures Lookup(r, k) == Some(v)
    ensures forall k' | k' != k :: Lookup(r, k') == Lookup(es, k')
    ensures k in KeysOf(es) ==> KeysOf(r) == KeysOf(es)
    ensures k !in KeysOf(es) ==> KeysOf(r) == KeysOf(es) + [k]
    decreases |es|
  {
    if |es| == 0 then [(k, v)]
    else if es[0].0 == k then [(k, v)] + es[1..]
    else
      var rest := Put(es[1..], k, v);
      assert KeysOf([es[0]] + rest) == [es[0].0] + KeysOf(rest) by {
        assert ([es[0]] + rest)[1..] == rest;
      }
      [es[0]] + rest
  }

  /** `ks` without any occurrence of `k`, the other keys in their order. */
  function Filter(ks: seq<string>, k: string): (r: seq<string>)
    ensures forall x :: x in r <==> x in ks && x != k
    ensures |r| <= |ks|
  {
    if |ks| == 0 then []
    else if ks[0] == k then Filter(ks[1..], k)
    else [ks[0]] + Filter(ks[1..], k)
  }

  /** With distinct keys, dropping `k` cuts it out of its position and
      leaves the keys before and after it as they were. */
  lemma {:induction false} FilterUnique(ks: seq<string>, i: nat)
    requires Unique(ks) && i < |ks|
    ensures Filter(ks, ks[i]) == ks[..i] + ks[i + 1..]
    decreases i
  {
    var tail := ks[1..];
    if i == 0 {
      assert ks[0] !in tail;
      FilterAbsent(tail, ks[0]);
    } else {
      var k := ks[i];
      assert tail[i - 1] == k;
      assert k in tail;
      assert ks[0] != k;
      assert Filter(ks, k) == [ks[0]] + Filter(tail, k);
      FilterUnique(tail, i - 1);
      assert ks[..i] == [ks[0]] + tail[..i - 1];
      assert tail[i..] == ks[i + 1..];
    }
  }

  /** Dropping an absent key changes nothing. */
  lemma {:induction false} FilterAbsent(ks: seq<string>, k: string)
    requires k !in ks
    ensures Filter(ks, k) == ks
    decreases |ks|
  {
    if |ks| > 0 {
      FilterAbsent(ks[1..], k);
    }
  }

  /** PHP `unset($a[$k])`: drop the entries under `k`, keep the rest in order. */
  function Without<V>(es: Entries<V>, k: string): (r: Entries<V>)
    ensures Lookup(r, k) == None
    ensures forall k' | k' != k :: Lookup(r, k') == Lookup(es, k')
    ensures forall x :: x in KeysOf(r) <==> x in KeysOf(es) && x != k
    ensures KeysOf(r) == Filter(KeysOf(es), k)
    ensures k !in KeysOf(es) ==> r == es
    ensures Unique(KeysOf(es)) ==> Unique(KeysOf(r))
    ensures forall e | e in r :: e in es
    decreases |es|
  {
    if |es| == 0 then []
    else if es[0].0 == k then Without(es[1..], k)
    else
      var rest := Without(es[1..], k);
      assert KeysOf([es[0]] + rest) == [es[0].0] + KeysOf(rest) by {
        assert ([es[0]] + rest)[1..] == rest;
      }
      assert k !in KeysOf(es) ==> es == [es[0]] + es[1..];
      [es[0]] + rest
  }

  /** A map as the PHP class `HashMap` wraps it. */
  datatype HashMap<V> = HashMap(entries: Entries<V>) {

    /** Keys are pairwise distinct, as in every PHP array. */
    predicate Valid() {
      Unique(KeysOf(entries))
    }

    function Get(k: string): Option<V> {
      Lookup(entries, k)
    }

    /** Key existence, whatever the stored value (`array_key_exists`, not `isset`). */
    predicate Has(k: string) {
      Lookup(entries, k).Some?
    }

    function Set(k: string, v: V): (r: HashMap<V>)
      ensures r.Get(k) == Some(v)
      ensures r.Has(k)
      ensures forall k' | k' != k :: r.Get(k') == Get(k')
      ensures Has(k) ==> r.Keys() == Keys()
      ensures !Has(k) ==> r.Keys() == Keys() + [k]
      ensures Valid() ==> r.Valid()
    {
      LookupIffKey(entries, k);
      var r := HashMap(Put(entries, k, v));
      assert !Has(k) && Valid() ==> r.Valid() by {
        if !Has(k) && Valid() {
          AppendFreshUnique(KeysOf(entries), k);
        }
      }
      r
    }

    function Del(k: string): (r: HashMap<V>)
      ensures !r.Has(k)
      ensures forall k' | k' != k :: r.Get(k') == Get(k')
      ensures forall x :: x in r.Keys() <==> x in Keys() && x != k
      ensures r.Keys() == Filter(Keys(), k)
      ensures !Has(k) ==> r == this
      ensures Valid() ==> r.Valid()
      ensures forall e | e in r.entries :: e in entries
    {
      LookupIffKey(entries, k);
      HashMap(Without(entries, k))
    }

    function Keys(): seq<string> {
      KeysOf(entries)
    }

    function Values(): seq<V> {
      ValuesOf(entries)
    }

    /** `count()`: the number of keys, and of values. */
    function Count(): (n: nat)
      ensures n == |Keys()| && n == |Values()|
    {
      |entries|
    }

    function Clear(): (r: HashMap<V>)
      ensures r.Keys() == [] && r.Count() == 0
      ensures forall k :: !r.Has(k)
    {
      HashMap([])
    }

    /** `ArrayAccess` spellings of the same four operations. */
    predicate OffsetExists(k: string) {
      Has(k)
    }

    function OffsetGet(k: string): Option<V> {
      Get(k)
    }

    function OffsetSet(k: string, v: V): HashMap<V> {
      Set(k, v)
    }

    function OffsetUnset(k: string): HashMap<V> {
      Del(k)
    }
  }

  /** The empty map a lazily created partition starts as. */
  function Empty<V>(): (m: HashMap<V>)
    ensures m.Valid() && m.Keys() == []
    ensures forall k :: !m.Has(k)
  {
    HashMap([])
  }

  lemma {:induction false} AppendFreshUnique(ks: seq<string>, k: string)
    requires Unique(ks) && k !in ks
    ensures Unique(ks + [k])
    decreases |ks|
  {
    if |ks| > 0 {
      assert (ks + [k])[1..] == ks[1..] + [k];
      AppendFreshUnique(ks[1..], k);
    }
  }

  /** `has` is a question about keys only: a key stored with any value is present. */
  lemma HasIffInKeys<V>(m: HashMap<V>, k: string)
    ensures m.Has(k) <==> k in m.Keys()
    ensures m.Get(k).None? <==> k !in m.Keys()
  {
    LookupIffKey(m.entries, k);
  }

  /** `values()` lines up with `keys()`: the i-th value is the one stored under the i-th key. */
  lemma {:induction false} ValuesAligned<V>(es: Entries<V>)
    requires Unique(KeysOf(es))
    ensures forall i | 0 <= i < |es| :: Lookup(es, KeysOf(es)[i]) == Some(ValuesOf(es)[i])
    decreases |es|
  {
    if |es| > 0 {
      ValuesAligned(es[1..]);
      forall i | 0 <= i < |es|
        ensures Lookup(es, KeysOf(es)[i]) == Some(ValuesOf(es)[i])
      {
        if i > 0 {
          assert KeysOf(es)[i] == KeysOf(es[1..])[i - 1];
          assert ValuesOf(es)[i] == ValuesOf(es[1..])[i - 1];
          assert KeysOf(es)[i] in KeysOf(es)[1..];
        }
      }
    }
  }

  /** Re-assigning a key keeps its position; a new key goes last. */
  lemma SetKeepsOrder<V>(m: HashMap<V>, k: string, v: V, w: V)
    requires !m.Has(k)
    ensures m.Set(k, v).Keys() == m.Keys() + [k]
    ensures m.Set(k, v).Set(k, w).Keys() == m.Keys() + [k]
    ensures m.Set(k, v).Set(k, w).Get(k) == Some(w)
  {
  }

  /** The `offset*` methods behave exactly as `has`, `get`, `set` and `del`. */
  lemma OffsetAliases<V>(m: HashMap<V>, k: string, v: V)
    ensures m.OffsetExists(k) <==> k in m.Keys()
    ensures m.OffsetGet(k) == m.Get(k)
    ensures m.OffsetSet(k, v).Get(k) == Some(v)
    ensures !m.OffsetUnset(k).Has(k)
  {
    HasIffInKeys(m, k);
  }
}
