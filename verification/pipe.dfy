/** `Pipe`: the table of "resolved" listeners and the order `fire` calls them in.
    Listeners are opaque closure ids; calling one with `(value, container)` is
    recorded as its id appearing in the list `Fire` returns. */
module Pipes {
  import opened Wrappers
  import opened HashMaps
  import opened Values

  /** The key every listener registered through `all` is stored under. */
  const Wildcard: string := "*"

  /** A listener bound under `bind` hears about a resolution keyed by `key`:
      the two are strictly equal, or `bind` is the wildcard. A Closure or
      array key is never strictly equal to a string binding key. */
  predicate Matches(bind: string, key: Value) {
    key == Str(bind) || bind == Wildcard
  }

  /** The listeners `fire` calls, walking the binding keys in table order. */
  function FireFrom(es: Entries<seq<nat>>, key: Value): seq<nat>
    decreases |es|
  {
    if |es| == 0 then []
    else (if Matches(es[0].0, key) then es[0].1 else []) + FireFrom(es[1..], key)
  }

  datatype Pipe = Pipe(bindings: HashMap<seq<nat>>) {

    /** The listeners bound under `k`, in registration order. */
    function Listeners(k: string): seq<nat> {
      bindings.Get(k).GetOr([])
    }

    /** `on($key, $callback)`. */
    function On(k: string, cb: nat): (r: Pipe)
      ensures r.Listeners(k) == Listeners(k) + [cb]
      ensures forall k' | k' != k :: r.Listeners(k') == Listeners(k')
      ensures bindings.Has(k) ==> r.bindings.Keys() == bindings.Keys()
      ensures !bindings.Has(k) ==> r.bindings.Keys() == bindings.Keys() + [k]
      ensures bindings.Valid() ==> r.bindings.Valid()
    {
      if bindings.Has(k) then Pipe(bindings.Set(k, bindings.Get(k).value + [cb]))
      else Pipe(bindings.Set(k, [cb]))
    }

    /** `all($callback)`: a listener for every resolution. */
    function All(cb: nat): (r: Pipe)
      ensures r.Listeners(Wildcard) == Listeners(Wildcard) + [cb]
      ensures forall k' | k' != Wildcard :: r.Listeners(k') == Listeners(k')
    {
      On(Wildcard, cb)
    }

    /** `fire($key, $val, $container)`: the listeners called, in call order;
        each is called with the same value and the container. */
    function Fire(key: Value): (r: seq<nat>)
      ensures bindings.Valid() && key.Str? && key.s != Wildcard ==> r == Expected(bindings.entries, key.s)
    {
      if bindings.Valid() && key.Str? && key.s != Wildcard then
        FireFromCharacterised(bindings.entries, key.s);
        FireFrom(bindings.entries, key)
      else FireFrom(bindings.entries, key)
    }
  }

  /** The empty listener table of a new container. */
  function NoListeners(): (p: Pipe)
    ensures p.bindings.Valid()
    ensures forall k :: p.Listeners(k) == []
  {
    Pipe(Empty())
  }

  /** Position of key `x` among the binding keys; the table's length when absent. */
  function Pos(es: Entries<seq<nat>>, x: string): (n: nat)
    ensures n <= |es|
    decreases |es|
  {
    if |es| == 0 then 0 else if es[0].0 == x then 0 else 1 + Pos(es[1..], x)
  }

  /** The wildcard's and `k`'s listeners of `es`, in table order. */
  function Expected(es: Entries<seq<nat>>, k: string): seq<nat>
  {
    var w := Lookup(es, Wildcard).GetOr([]);
    var own := Lookup(es, k).GetOr([]);
    if Pos(es, Wildcard) <= Pos(es, k) then w + own else own + w
  }

  lemma {:induction false} FireFromCharacterised(es: Entries<seq<nat>>, k: string)
    requires Unique(KeysOf(es)) && k != Wildcard
    ensures FireFrom(es, Str(k)) == Expected(es, k)
    decreases |es|
  {
    if |es| > 0 {
      var rest := es[1..];
      FireFromCharacterised(rest, k);
      assert KeysOf(es)[1..] == KeysOf(rest);
      var here := es[0].1;
      if es[0].0 == Wildcard {
        LookupIffKey(rest, Wildcard);
        assert Lookup(rest, Wildcard) == None;
        assert Expected(rest, k) == Lookup(rest, k).GetOr([]);
        assert FireFrom(es, Str(k)) == here + FireFrom(rest, Str(k));
        assert Expected(es, k) == here + Lookup(rest, k).GetOr([]);
      } else if es[0].0 == k {
        LookupIffKey(rest, k);
        assert Lookup(rest, k) == None;
        assert Expected(rest, k) == Lookup(rest, Wildcard).GetOr([]);
        assert FireFrom(es, Str(k)) == here + FireFrom(rest, Str(k));
        assert Pos(es, k) == 0 < Pos(es, Wildcard);
        assert Expected(es, k) == here + Lookup(rest, Wildcard).GetOr([]);
      } else {
        assert FireFrom(es, Str(k)) == FireFrom(rest, Str(k));
        assert Pos(es, k) == 1 + Pos(rest, k) && Pos(es, Wildcard) == 1 + Pos(rest, Wildcard);
        assert Expected(es, k) == Expected(rest, k);
      }
    }
  }

  /** Only the key's own listeners and the wildcard listeners are called,
      grouped by binding key in the order the keys were first subscribed,
      and in registration order within each key. */
  lemma FireOrder(p: Pipe, k: string)
    requires p.bindings.Valid() && k != Wildcard
    ensures p.Fire(Str(k)) ==
      if Pos(p.bindings.entries, Wildcard) <= Pos(p.bindings.entries, k)
      then p.Listeners(Wildcard) + p.Listeners(k)
      else p.Listeners(k) + p.Listeners(Wildcard)
  {
    FireFromCharacterised(p.bindings.entries, k);
  }

  /** Wildcard listeners subscribed before any listener of `k` run first. */
  lemma WildcardFirst(k: string, w: nat, own: nat)
    requires k != Wildcard
    ensures NoListeners().All(w).On(k, own).Fire(Str(k)) == [w, own]
    ensures NoListeners().On(k, own).All(w).Fire(Str(k)) == [own, w]
  {
    var p1 := NoListeners().All(w).On(k, own);
    var p2 := NoListeners().On(k, own).All(w);
    FireOrder(p1, k);
    FireOrder(p2, k);
    assert p1.bindings.entries == [(Wildcard, [w]), (k, [own])];
    assert p2.bindings.entries == [(k, [own]), (Wildcard, [w])];
  }

  lemma {:induction false} FireFromWildcardOnly(es: Entries<seq<nat>>, key: Value)
    requires Unique(KeysOf(es))
    requires key == Str(Wildcard) || !key.Str?
    ensures FireFrom(es, key) == Lookup(es, Wildcard).GetOr([])
    decreases |es|
  {
    if |es| > 0 {
      var rest := es[1..];
      FireFromWildcardOnly(rest, key);
      assert KeysOf(es)[1..] == KeysOf(rest);
      if es[0].0 == Wildcard {
        LookupIffKey(rest, Wildcard);
      }
    }
  }

  /** A resolution keyed by a Closure or an array reaches only the wildcard
      listeners; so does one keyed by the string "*" itself. */
  lemma FireCallableKey(p: Pipe, key: Value)
    requires p.bindings.Valid()
    requires key == Str(Wildcard) || !key.Str?
    ensures p.Fire(key) == p.Listeners(Wildcard)
  {
    FireFromWildcardOnly(p.bindings.entries, key);
  }

  /** With no listener under the key and none under the wildcard, nothing is called. */
  lemma FireNobody(p: Pipe, key: Value)
    requires p.bindings.Valid()
    requires !p.bindings.Has(Wildcard)
    requires key.Str? ==> !p.bindings.Has(key.s)
    ensures p.Fire(key) == []
  {
    if key.Str? && key.s != Wildcard {
      FireOrder(p, key.s);
    } else {
      FireCallableKey(p, key);
    }
  }
}
