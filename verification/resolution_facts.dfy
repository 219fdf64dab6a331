/** What `make` promises: the precedence of the partitions, singleton
    promotion, the one-hop alias, deferred providers, and how arguments
    are chosen. Most lemmas assume every partition already exists
    (`AllCreated`), so that reading a partition changes nothing. */
module ResolutionFacts {
  import opened Wrappers
  import opened HashMaps
  import opened Values
  import opened Storage
  import opened Pipes
  import opened Containers
  import opened Resolution

  /** Every partition has been created already. */
  predicate AllCreated(st: State) {
    forall p: Part :: p in st.storage.order
  }

  /** No deferred provider lists `k`. */
  predicate NoProviderFor(st: State, k: string) {
    forall e | e in st.storage.deferred.entries :: Str(k) !in e.1
  }

  /** The state after one notification for `key` carrying `v`. */
  function Notified(st: State, key: Value, v: Value): State {
    st.(trace := st.trace + [Fired(key, v, st.pipe.Fire(key))])
  }

  /** With no provider listing `k` in the rows still to visit, the loop of
      `resolveDeferred` does nothing. */
  lemma {:induction false} ResolveDeferredNoMatch(env: Env, st: State, k: string, snapshot: Entries<seq<Value>>, i: nat, fuel: nat)
    requires i <= |snapshot|
    requires forall j | i <= j < |snapshot| :: Str(k) !in snapshot[j].1
    ensures ResolveDeferred(env, st, k, snapshot, i, fuel) == Outcome(st, Success(()))
    decreases |snapshot| - i
  {
    if i < |snapshot| {
      ResolveDeferredNoMatch(env, st, k, snapshot, i + 1, fuel);
    }
  }

  /** The deferred step of `make(k)` when nothing is deferred for `k`. */
  lemma NoDeferredStep(env: Env, st: State, k: string, fuel: nat)
    requires AllCreated(st) && NoProviderFor(st, k)
    ensures ResolveDeferred(env, st, k, st.storage.deferred.entries, 0, fuel) == Outcome(st, Success(()))
  {
    var snapshot := st.storage.deferred.entries;
    forall j | 0 <= j < |snapshot|
      ensures Str(k) !in snapshot[j].1
    {
      assert snapshot[j] in snapshot;
    }
    ResolveDeferredNoMatch(env, st, k, snapshot, 0, fuel);
  }

  /** Reading a partition that exists changes nothing. */
  lemma TouchCreated(st: State, p: Part)
    requires AllCreated(st)
    ensures st.Touch(p) == st
  {
    assert p in st.storage.order;
  }

  /** `make` of a string key: one alias hop, then the deferred step. */
  lemma MakeString(env: Env, st: State, k: string, additional: map<string, Value>, fuel: nat)
    requires AllCreated(st)
    ensures !st.storage.aliases.Has(k) ==>
      Make(env, st, Str(k), additional, fuel + 1) == MakeKey(env, st, k, additional, fuel)
    ensures st.storage.aliases.Has(k) && st.storage.aliases.Get(k).value.Str? ==>
      Make(env, st, Str(k), additional, fuel + 1)
      == MakeKey(env, st, st.storage.aliases.Get(k).value.s, additional, fuel)
  {
    TouchCreated(st, Aliases);
  }

  /** With no provider deferred for `k`, `make` goes straight to the partitions. */
  lemma MakeKeyNoProvider(env: Env, st: State, k: string, additional: map<string, Value>, fuel: nat)
    requires AllCreated(st) && NoProviderFor(st, k)
    ensures MakeKey(env, st, k, additional, fuel) == FromPartitions(env, st, k, additional, fuel)
  {
    TouchCreated(st, Deferred);
    NoDeferredStep(env, st, k, fuel);
  }

  /** `make` of a plain key that nothing is deferred for. */
  lemma MakeBound(env: Env, st: State, k: string, additional: map<string, Value>, fuel: nat)
    requires AllCreated(st) && NoProviderFor(st, k) && !st.storage.aliases.Has(k)
    ensures Make(env, st, Str(k), additional, fuel + 1) == FromPartitions(env, st, k, additional, fuel)
  {
    MakeString(env, st, k, additional, fuel);
    MakeKeyNoProvider(env, st, k, additional, fuel);
  }

  /** A key stored with `instance` is handed out verbatim, and the storage
      is left as it was: only the notification is added. */
  lemma MakeInstance(env: Env, st: State, k: string, additional: map<string, Value>, fuel: nat)
    requires AllCreated(st) && NoProviderFor(st, k)
    requires !st.storage.aliases.Has(k) && st.storage.instances.Has(k)
    ensures
      var v := st.storage.instances.Get(k).value;
      Make(env, st, Str(k), additional, fuel + 1) == Outcome(Notified(st, Str(k), v), Success(v))
  {
    MakeBound(env, st, k, additional, fuel);
    TouchCreated(st, Instances);
  }

  /** A factory is resolved afresh on every `make`: a Closure factory is
      called with the container, whatever `additional` holds, and stays
      registered. */
  lemma MakeFactoryClosure(env: Env, st: State, k: string, id: nat, additional: map<string, Value>, fuel: nat)
    requires AllCreated(st) && NoProviderFor(st, k)
    requires !st.storage.aliases.Has(k) && !st.storage.instances.Has(k)
    requires st.storage.registry.Get(k) == Some(Closure(id))
    ensures
      var v := env.callWithContainer(id);
      Make(env, st, Str(k), additional, fuel + 1) == Outcome(Notified(st, Str(k), v), Success(v))
  {
    MakeBound(env, st, k, additional, fuel);
    TouchCreated(st, Instances);
    TouchCreated(st, Registry);
  }

  /** A factory that is a string is made with the same `additional`, and
      the notification goes to the registered key. */
  lemma MakeFactoryString(env: Env, st: State, k: string, target: string, additional: map<string, Value>, fuel: nat)
    requires AllCreated(st) && NoProviderFor(st, k)
    requires !st.storage.aliases.Has(k) && !st.storage.instances.Has(k)
    requires st.storage.registry.Get(k) == Some(Str(target))
    ensures
      var inner := Make(env, st, Str(target), additional, fuel);
      var outer := Make(env, st, Str(k), additional, fuel + 1);
      && outer.result == inner.result
      && (inner.result.Success? ==> outer.state == Notified(inner.state, Str(k), inner.result.value))
  {
    MakeBound(env, st, k, additional, fuel);
    TouchCreated(st, Instances);
    TouchCreated(st, Registry);
  }

  /** The first `make` of a singleton calls its producer once, moves the
      result to the instance partition and drops the producer; the next
      `make` hands out the same value without calling anything. */
  lemma MakeSingletonOnce(env: Env, st: State, k: string, id: nat, additional: map<string, Value>, fuel: nat)
    requires AllCreated(st) && NoProviderFor(st, k)
    requires !st.storage.aliases.Has(k) && !st.storage.instances.Has(k) && !st.storage.registry.Has(k)
    requires st.storage.singletons.Get(k) == Some(Closure(id))
    ensures
      var v := env.callWithContainer(id);
      var first := Make(env, st, Str(k), additional, fuel + 1);
      && first.result == Success(v)
      && first.state.storage.instances.Get(k) == Some(v)
      && !first.state.storage.singletons.Has(k)
      && Make(env, first.state, Str(k), additional, fuel + 1).result == Success(v)
  {
    MakeBound(env, st, k, additional, fuel);
    TouchCreated(st, Instances);
    TouchCreated(st, Registry);
    TouchCreated(st, Singletons);
    var v := env.callWithContainer(id);
    var promoted := Promote(st, k, v);
    TouchCreated(st, Instances);
    var first := Make(env, st, Str(k), additional, fuel + 1);
    assert first == Outcome(Notified(promoted, Str(k), v), Success(v));
    var s1 := first.state;
    assert s1.storage.order == st.storage.order;
    assert AllCreated(s1);
    assert NoProviderFor(s1, k);
    MakeInstance(env, s1, k, additional, fuel);
  }

  /** A singleton whose producer is a class name: the first `make` is the
      `make` of that name with the same `additional`, and on success the
      value is promoted and the producer dropped. The next `make` hands out
      the same value, unless a provider run by the first one aliased the key. */
  lemma MakeSingletonString(env: Env, st: State, k: string, t: string, additional: map<string, Value>,
                            later: map<string, Value>, fuel: nat)
    requires AllCreated(st) && NoProviderFor(st, k)
    requires !st.storage.aliases.Has(k) && !st.storage.instances.Has(k) && !st.storage.registry.Has(k)
    requires st.storage.singletons.Get(k) == Some(Str(t))
    ensures
      var inner := Make(env, st, Str(t), additional, fuel);
      var first := Make(env, st, Str(k), additional, fuel + 1);
      && first.result == inner.result
      && (inner.result.Success? ==>
            && first.state.storage.instances.Get(k) == Some(inner.result.value)
            && !first.state.storage.singletons.Has(k)
            && (!inner.state.storage.aliases.Has(k) ==>
                  Make(env, first.state, Str(k), later, fuel + 1).result == inner.result))
  {
    MakeBound(env, st, k, additional, fuel);
    TouchCreated(st, Instances);
    TouchCreated(st, Registry);
    TouchCreated(st, Singletons);
    var inner := Make(env, st, Str(t), additional, fuel);
    if inner.result.Success? {
      var v := inner.result.value;
      var promoted := Promote(inner.state, k, v);
      var first := Make(env, st, Str(k), additional, fuel + 1);
      assert first == Outcome(Notified(promoted, Str(k), v), Success(v));
      if !inner.state.storage.aliases.Has(k) {
        var s1 := first.state;
        assert AllCreated(s1);
        forall e | e in s1.storage.deferred.entries
          ensures Str(k) !in e.1
        {
          assert e in st.storage.deferred.entries;
        }
        HasIffInKeys(s1.storage.instances, k);
        MakeInstance(env, s1, k, later, fuel);
      }
    }
  }

  /** An alias is followed one hop only: when the target is itself an
      alias and is bound to nothing else, `make` does not follow it but
      tries to reflect the target as a class name. */
  lemma AliasOneHop(env: Env, st: State, a: string, b: string, additional: map<string, Value>, fuel: nat)
    requires AllCreated(st) && NoProviderFor(st, b)
    requires st.storage.aliases.Get(a) == Some(Str(b))
    requires st.storage.aliases.Has(b)
    requires !st.storage.instances.Has(b) && !st.storage.registry.Has(b) && !st.storage.singletons.Has(b)
    requires NoSeparator(b) && b !in env.classes
    ensures Make(env, st, Str(a), additional, fuel + 1).result == Failure(Reflection(ClassNotFound(b)))
  {
    MakeString(env, st, a, additional, fuel);
    MakeKeyNoProvider(env, st, b, additional, fuel);
    TouchCreated(st, Instances);
    TouchCreated(st, Registry);
    TouchCreated(st, Singletons);
    SplitPlain(b);
  }

  /** `s` holds no "::". */
  predicate NoSeparator(s: string) {
    forall j | 0 <= j < |s| - 1 :: !(s[j] == ':' && s[j + 1] == ':')
  }

  /** A key without "::" names a class and no method. */
  lemma SplitPlain(key: string)
    requires NoSeparator(key)
    ensures SplitTarget(key) == (key, None)
  {
    SplitPlainFind(key);
  }

  /** "C::m", with no ':' in `C` and no "::" in `m`, names class `C` and method `m`. */
  lemma SplitMethod(c: string, m: string)
    requires forall j | 0 <= j < |c| :: c[j] != ':'
    requires NoSeparator(m)
    ensures SplitTarget(c + "::" + m) == (c, Some(m))
  {
    var key := c + "::" + m;
    assert key == c + ("::" + m);
    FindAfterColonFree(c, "::" + m);
    assert FindSeparator(key) == |c|;
    assert key[|c| + 2..] == m;
    SplitPlainFind(m);
    assert key[..|c|] == c;
  }

  lemma SplitPlainFind(s: string)
    requires NoSeparator(s)
    ensures FindSeparator(s) < 0
  {
  }

  /** A prefix without ':' is skipped whole by the search for "::". */
  lemma {:induction false} FindAfterColonFree(c: string, rest: string)
    requires forall j | 0 <= j < |c| :: c[j] != ':'
    requires |rest| >= 2 && rest[0] == ':' && rest[1] == ':'
    ensures FindSeparator(c + rest) == |c|
    decreases |c|
  {
    if |c| > 0 {
      assert (c + rest)[1..] == c[1..] + rest;
      FindAfterColonFree(c[1..], rest);
    } else {
      assert c + rest == rest;
    }
  }

  /** `make` of a class name that no class answers to fails with the
      reflection error; one that is not instantiable fails with its own error. */
  lemma ReflectClassErrors(env: Env, st: State, cls: string, additional: map<string, Value>, fuel: nat)
    requires NoSeparator(cls)
    ensures cls !in env.classes ==>
      Reflect(env, st, Str(cls), additional, fuel) == Outcome(st, Failure(Reflection(ClassNotFound(cls))))
    ensures cls in env.classes && !env.classes[cls].instantiable ==>
      Reflect(env, st, Str(cls), additional, fuel) == Outcome(st, Failure(NotInstantiable(cls)))
  {
    SplitPlain(cls);
  }

  /** "C::m" constructs `C` with the arguments built for its constructor
      under consumer `C` (none without a constructor), then calls `m` on that instance with arguments
      built under the same consumer and from the same `additional`. */
  lemma ReflectMethodDispatch(env: Env, st: State, c: string, m: string, additional: map<string, Value>, fuel: nat)
    requires AllCreated(st)
    requires forall j | 0 <= j < |c| :: c[j] != ':'
    requires NoSeparator(m)
    requires c in env.classes && env.classes[c].instantiable
    requires m in env.classes[c].methods
    requires env.classes[c].ctor.Some? ==>
      forall i | 0 <= i < |env.classes[c].ctor.value| :: env.classes[c].ctor.value[i].cls.None?
    requires forall i | 0 <= i < |env.classes[c].methods[m]| :: env.classes[c].methods[m][i].cls.None?
    ensures
      var info := env.classes[c];
      var ctorArgs := if info.ctor.Some? then PlainArguments(env, st, c, info.ctor.value, additional) else [];
      var instance := env.construct(c, ctorArgs);
      Reflect(env, st, Str(c + "::" + m), additional, fuel)
      == Outcome(st, Success(env.invokeMethod(c, m, instance, PlainArguments(env, st, c, info.methods[m], additional))))
  {
    SplitMethod(c, m);
    if env.classes[c].ctor.Some? {
      BuildPlainArguments(env, st, c, env.classes[c].ctor.value, additional, fuel);
    }
    BuildPlainArguments(env, st, c, env.classes[c].methods[m], additional, fuel);
  }

  /** The argument a parameter without a class type receives, computed
      directly from the `additional` map, the override table and the default;
      `None` means no argument is passed. */
  function PlainArgument(env: Env, st: State, context: string, p: Param, additional: map<string, Value>): Option<Value>
    requires p.cls.None?
  {
    if p.name in additional then Some(additional[p.name])
    else match GetOverride(st, context, "$" + p.name)
      case Some(v) => Some(if v.Closure? then env.callWithContainer(v.id) else v)
      case None => p.default
  }

  /** The argument list for parameters without class types: one entry per
      parameter that receives one, in order. */
  function PlainArguments(env: Env, st: State, context: string, params: seq<Param>, additional: map<string, Value>): seq<Value>
    requires forall i | 0 <= i < |params| :: params[i].cls.None?
  {
    if |params| == 0 then []
    else
      var here := PlainArgument(env, st, context, params[0], additional);
      (if here.Some? then [here.value] else []) + PlainArguments(env, st, context, params[1..], additional)
  }

  /** With every partition created and no parameter typed by a class,
      `buildArguments` never fails, never changes the container, and
      returns exactly the reference argument list. */
  lemma {:induction false} BuildPlainArguments(env: Env, st: State, context: string, params: seq<Param>,
                                               additional: map<string, Value>, fuel: nat)
    requires AllCreated(st)
    requires forall i | 0 <= i < |params| :: params[i].cls.None?
    ensures BuildArguments(env, st, context, params, additional, fuel)
            == Outcome(st, Success(PlainArguments(env, st, context, params, additional)))
    decreases |params|
  {
    if |params| > 0 {
      var p := params[0];
      assert p.cls.None?;
      assert p.Abstract() == "$" + p.name;
      assert Argument(env, st, context, p, additional, fuel)
             == Outcome(st, Success(PlainArgument(env, st, context, p, additional)));
      BuildPlainArguments(env, st, context, params[1..], additional, fuel);
    }
  }

  /** A parameter that receives nothing is skipped, not filled with a
      placeholder: the arguments after it move one place to the left. */
  lemma MissingArgumentShifts(env: Env, st: State, context: string, a: string, b: string, d: Value, fuel: nat)
    requires AllCreated(st)
    requires GetOverride(st, context, "$" + a).None? && GetOverride(st, context, "$" + b).None?
    ensures BuildArguments(env, st, context, [Param(a, None, None), Param(b, None, Some(d))], map[], fuel)
            == Outcome(st, Success([d]))
  {
    var ps := [Param(a, None, None), Param(b, None, Some(d))];
    BuildPlainArguments(env, st, context, ps, map[], fuel);
    assert PlainArgument(env, st, context, ps[0], map[]) == None;
    assert PlainArgument(env, st, context, ps[1], map[]) == Some(d);
    assert ps[1..][1..] == [];
    assert PlainArguments(env, st, context, ps, map[]) == [d];
  }

  /** An override for the consumer beats autowiring: a parameter typed with
      class `T` receives the override stored under `T`, called with the
      container when it is a Closure, and no `make` takes place. */
  lemma OverrideBeatsAutowiring(env: Env, st: State, context: string, p: Param, additional: map<string, Value>, fuel: nat)
    requires AllCreated(st)
    requires p.name !in additional && p.cls.Some? && p.cls.value in env.classes
    requires IsOverriden(st, context, p.cls.value)
    ensures
      var v := GetOverride(st, context, p.cls.value).value;
      Argument(env, st, context, p, additional, fuel)
      == Outcome(st, Success(Some(if v.Closure? then env.callWithContainer(v.id) else v)))
  {
  }

  /** Without an explicit argument or an override, a parameter typed with
      a known class is autowired: it receives `make` of that class name,
      with no `additional`. */
  lemma AutowireMakesClass(env: Env, st: State, context: string, p: Param, additional: map<string, Value>, fuel: nat)
    requires AllCreated(st)
    requires p.name !in additional && p.cls.Some? && p.cls.value in env.classes
    requires !IsOverriden(st, context, p.cls.value)
    ensures
      var made := Make(env, st, Str(p.cls.value), map[], fuel);
      Argument(env, st, context, p, additional, fuel)
      == if made.result.Failure? then Outcome(made.state, Failure(made.result.error))
         else Outcome(made.state, Success(Some(made.result.value)))
  {
    TouchCreated(st, Context);
  }

  /** A Closure or array key bypasses the aliases, the deferred providers
      and every partition: `make` is reflection followed by one notification
      under the key itself. */
  lemma MakeCallableReflects(env: Env, st: State, key: Value, additional: map<string, Value>, fuel: nat)
    requires IsCallableForm(key)
    ensures
      var direct := Reflect(env, st, key, additional, fuel);
      var made := Make(env, st, key, additional, fuel + 1);
      && made.result == direct.result
      && (direct.result.Success? ==> made.state == Notified(direct.state, key, direct.result.value))
      && (direct.result.Failure? ==> made.state == direct.state)
  {
  }

  /** The values stored under `keys` in the instance partition, in order. */
  function InstanceValues(instances: HashMap<Value>, keys: seq<string>): seq<Value>
    requires forall i | 0 <= i < |keys| :: instances.Has(keys[i])
  {
    if |keys| == 0 then []
    else
      assert instances.Has(keys[0]);
      [instances.Get(keys[0]).value] + InstanceValues(instances, keys[1..])
  }

  function AsKeys(keys: seq<string>): (r: seq<Value>)
    ensures |r| == |keys|
    ensures forall i | 0 <= i < |keys| :: r[i] == Str(keys[i])
  {
    if |keys| == 0 then [] else [Str(keys[0])] + AsKeys(keys[1..])
  }

  /** `makes` over keys bound with `instance` returns their values in order
      and leaves the storage as it was. */
  lemma {:induction false} MakesInstances(env: Env, st: State, keys: seq<string>, fuel: nat)
    requires AllCreated(st)
    requires forall i | 0 <= i < |keys| ::
      st.storage.instances.Has(keys[i]) && !st.storage.aliases.Has(keys[i]) && NoProviderFor(st, keys[i])
    ensures Makes(env, st, AsKeys(keys), fuel + 1).result == Success(InstanceValues(st.storage.instances, keys))
    ensures Makes(env, st, AsKeys(keys), fuel + 1).state.storage == st.storage
    decreases |keys|
  {
    if |keys| > 0 {
      var ks := AsKeys(keys);
      assert ks[0] == Str(keys[0]);
      assert ks[1..] == AsKeys(keys[1..]);
      MakeInstance(env, st, keys[0], map[], fuel);
      var v := st.storage.instances.Get(keys[0]).value;
      var s1 := Notified(st, Str(keys[0]), v);
      assert AllCreated(s1) && s1.storage == st.storage;
      assert forall i | 0 <= i < |keys[1..]| :: keys[1..][i] == keys[i + 1];
      MakesInstances(env, s1, keys[1..], fuel);
    }
  }

  /** The state `makes` has reached after making the first `n` keys. */
  function MadeUpTo(env: Env, st: State, keys: seq<Value>, n: nat, fuel: nat): State
    requires n <= |keys|
    decreases n
  {
    if n == 0 then st else Make(env, MadeUpTo(env, st, keys, n - 1, fuel), keys[n - 1], map[], fuel).state
  }

  /** Making the first key, then `n` more from the rest, is making `n + 1`. */
  lemma {:induction false} MadeUpToShift(env: Env, st: State, keys: seq<Value>, n: nat, fuel: nat)
    requires n < |keys|
    ensures MadeUpTo(env, st, keys, n + 1, fuel)
            == MadeUpTo(env, Make(env, st, keys[0], map[], fuel).state, keys[1..], n, fuel)
    decreases n
  {
    if n > 0 {
      MadeUpToShift(env, st, keys, n - 1, fuel);
      assert keys[1..][n - 1] == keys[n];
    }
  }

  /** `make` of key `i` within `makes`, on the state the earlier ones left. */
  function MakeAt(env: Env, st: State, keys: seq<Value>, i: nat, fuel: nat): Outcome<Value>
    requires i < |keys|
  {
    Make(env, MadeUpTo(env, st, keys, i, fuel), keys[i], map[], fuel)
  }

  /** The first key of `makes`, and the rest made from the state it left. */
  lemma MakeAtShift(env: Env, st: State, keys: seq<Value>, i: nat, fuel: nat)
    requires i + 1 < |keys|
    ensures MakeAt(env, st, keys, i + 1, fuel) == MakeAt(env, Make(env, st, keys[0], map[], fuel).state, keys[1..], i, fuel)
  {
    MadeUpToShift(env, st, keys, i, fuel);
  }

  /** A successful `makes(k1, ..., kn)` is `[make(k1), ..., make(kn)]`,
      each `make` run with no `additional` on the state the previous ones
      left, and ends in the state the last one left. */
  lemma {:induction false} MakesInOrder(env: Env, st: State, keys: seq<Value>, fuel: nat)
    ensures
      var o := Makes(env, st, keys, fuel);
      o.result.Success? ==>
        && o.state == MadeUpTo(env, st, keys, |keys|, fuel)
        && forall i | 0 <= i < |keys| :: MakeAt(env, st, keys, i, fuel).result == Success(o.result.value[i])
    decreases |keys|
  {
    var o := Makes(env, st, keys, fuel);
    if |keys| > 0 && o.result.Success? {
      var first := Make(env, st, keys[0], map[], fuel);
      var s1 := first.state;
      var rest := Makes(env, s1, keys[1..], fuel);
      assert first.result.Success? && rest.result.Success?;
      assert o.result.value == [first.result.value] + rest.result.value;
      MakesInOrder(env, s1, keys[1..], fuel);
      MadeUpToShift(env, st, keys, |keys| - 1, fuel);
      forall i | 0 <= i < |keys|
        ensures MakeAt(env, st, keys, i, fuel).result == Success(o.result.value[i])
      {
        if i > 0 {
          MakeAtShift(env, st, keys, i - 1, fuel);
        }
      }
    }
  }

  /** When the first key is made successfully, the makes of the rest are
      the makes of all keys from the second on. */
  lemma MakesPrefixShift(env: Env, st: State, keys: seq<Value>, i: nat, fuel: nat)
    requires i + 1 < |keys|
    requires Make(env, st, keys[0], map[], fuel).result.Success?
    requires forall j | 0 <= j < i ::
      MakeAt(env, Make(env, st, keys[0], map[], fuel).state, keys[1..], j, fuel).result.Success?
    ensures forall j | 0 <= j < i + 1 :: MakeAt(env, st, keys, j, fuel).result.Success?
    ensures MakeAt(env, st, keys, i + 1, fuel) == MakeAt(env, Make(env, st, keys[0], map[], fuel).state, keys[1..], i, fuel)
  {
    forall j | 0 <= j < i + 1
      ensures MakeAt(env, st, keys, j, fuel).result.Success?
    {
      if j > 0 {
        MakeAtShift(env, st, keys, j - 1, fuel);
      }
    }
    MakeAtShift(env, st, keys, i, fuel);
  }

  /** A failing `makes` fails with the first failing `make`, in the state
      that `make` left; every earlier `make` succeeded. */
  lemma {:induction false} MakesFailsAtFirst(env: Env, st: State, keys: seq<Value>, fuel: nat)
    ensures
      var o := Makes(env, st, keys, fuel);
      o.result.Failure? ==> exists i | 0 <= i < |keys| ::
        && (forall j | 0 <= j < i :: MakeAt(env, st, keys, j, fuel).result.Success?)
        && MakeAt(env, st, keys, i, fuel) == Outcome(o.state, Failure(o.result.error))
    decreases |keys|
  {
    var o := Makes(env, st, keys, fuel);
    if |keys| > 0 && o.result.Failure? {
      var first := Make(env, st, keys[0], map[], fuel);
      if first.result.Failure? {
        assert MakeAt(env, st, keys, 0, fuel) == Outcome(o.state, Failure(o.result.error));
      } else {
        var s1 := first.state;
        assert Makes(env, s1, keys[1..], fuel) == o;
        MakesFailsAtFirst(env, s1, keys[1..], fuel);
        var i' :| 0 <= i' < |keys[1..]|
          && (forall j | 0 <= j < i' :: MakeAt(env, s1, keys[1..], j, fuel).result.Success?)
          && MakeAt(env, s1, keys[1..], i', fuel) == Outcome(o.state, Failure(o.result.error));
        MakesPrefixShift(env, st, keys, i', fuel);
        assert MakeAt(env, st, keys, i' + 1, fuel) == Outcome(o.state, Failure(o.result.error));
      }
    }
  }

  /** A Closure key reaches only the wildcard listeners. */
  lemma MakeClosureFiresWildcard(env: Env, st: State, id: nat, additional: map<string, Value>, fuel: nat)
    requires st.pipe.bindings.Valid()
    ensures
      var o := Make(env, st, Closure(id), additional, fuel + 1);
      o.result.Success? ==> Last(o.state.trace).listeners == st.pipe.Listeners(Wildcard)
  {
    FireCallableKey(st.pipe, Closure(id));
  }

  /** After a successful `make`, no deferred provider that lists the key
      (after its alias hop) is left: each was removed before it was made. */
  lemma MakeConsumesProviders(env: Env, st: State, k: string, additional: map<string, Value>, fuel: nat)
    ensures
      var o := MakeKey(env, st, k, additional, fuel);
      o.result.Success? ==> NoProviderFor(o.state, k)
  {
    var s0 := st.Touch(Deferred);
    var o1 := ResolveDeferred(env, s0, k, s0.storage.deferred.entries, 0, fuel);
    var o := MakeKey(env, st, k, additional, fuel);
    if o.result.Success? {
      assert o1.result.Success?;
      assert Extends(o1.state, o.state);
      forall e | e in o.state.storage.deferred.entries
        ensures Str(k) !in e.1
      {
        assert e in o1.state.storage.deferred.entries;
        assert e in s0.storage.deferred.entries;
        assert s0.storage.deferred.entries[0..] == s0.storage.deferred.entries;
      }
    }
  }
  /** A key bound to nothing and naming a class without constructor is
      built by reflection with no arguments. */
  lemma MakeUnboundClass(env: Env, st: State, c: string, additional: map<string, Value>, fuel: nat)
    requires AllCreated(st) && NoProviderFor(st, c)
    requires !st.storage.aliases.Has(c) && !st.storage.instances.Has(c)
    requires !st.storage.registry.Has(c) && !st.storage.singletons.Has(c)
    requires NoSeparator(c) && c in env.classes && env.classes[c].instantiable && env.classes[c].ctor.None?
    ensures
      var v := env.construct(c, []);
      Make(env, st, Str(c), additional, fuel + 1) == Outcome(Notified(st, Str(c), v), Success(v))
  {
    MakeBound(env, st, c, additional, fuel);
    TouchCreated(st, Instances);
    TouchCreated(st, Registry);
    TouchCreated(st, Singletons);
    SplitPlain(c);
  }

  /** A key among a table's keys has a row. */
  lemma {:induction false} KeyHasEntry<V>(es: Entries<V>, k: string)
    requires k in KeysOf(es)
    ensures exists e | e in es :: e.0 == k
    decreases |es|
  {
    if es[0].0 != k {
      KeyHasEntry(es[1..], k);
      var e :| e in es[1..] && e.0 == k;
      assert e in es;
    }
  }

  /** Rows that do not list `k` are passed over by the loop of `resolveDeferred`. */
  lemma {:induction false} ResolveDeferredSkip(env: Env, st: State, k: string, snapshot: Entries<seq<Value>>,
                                               i: nat, i0: nat, fuel: nat)
    requires i <= i0 <= |snapshot|
    requires forall j | i <= j < i0 :: Str(k) !in snapshot[j].1
    ensures ResolveDeferred(env, st, k, snapshot, i, fuel) == ResolveDeferred(env, st, k, snapshot, i0, fuel)
    decreases i0 - i
  {
    if i < i0 {
      ResolveDeferredSkip(env, st, k, snapshot, i + 1, i0, fuel);
    }
  }

  /** `make(k)` from the deferred step, when row `i0` is the first to list `k`. */
  lemma MakeKeyFirstProvider(env: Env, st: State, k: string, additional: map<string, Value>, i0: nat, fuel: nat)
    requires AllCreated(st)
    requires i0 < |st.storage.deferred.entries| && Str(k) in st.storage.deferred.entries[i0].1
    requires forall j | 0 <= j < i0 :: Str(k) !in st.storage.deferred.entries[j].1
    ensures
      var snapshot := st.storage.deferred.entries;
      var p := snapshot[i0].0;
      var s2 := st.(storage := st.storage.(deferred := st.storage.deferred.Del(p)));
      var om := Make(env, s2, Str(p), map[], fuel);
      var made := if om.result.Success? then om.result.value else Null;
      var reg := Register(env, om.state, if made.Obj? then made.cls else p);
      var rest := ResolveDeferred(env, reg.state, k, snapshot, i0 + 1, fuel);
      MakeKey(env, st, k, additional, fuel)
      == if om.result.Failure? then Outcome(om.state, Failure(om.result.error))
         else if !made.Obj? then Outcome(om.state, Failure(NotAnObject(TypeName(made))))
         else if reg.result.Failure? then Outcome(reg.state, Failure(reg.result.error))
         else if rest.result.Failure? then Outcome(rest.state, Failure(rest.result.error))
         else FromPartitions(env, rest.state, k, additional, fuel)
  {
    var snapshot := st.storage.deferred.entries;
    TouchCreated(st, Deferred);
    ResolveDeferredSkip(env, st, k, snapshot, 0, i0, fuel);
    var o1 := ResolveDeferred(env, st, k, snapshot, i0, fuel);
    assert MakeKey(env, st, k, additional, fuel)
           == if o1.result.Failure? then Outcome(o1.state, Failure(o1.result.error))
              else FromPartitions(env, o1.state, k, additional, fuel);
    ResolveDeferredAt(env, st, k, snapshot, i0, fuel);
  }

  /** A table that only lost rows has no key its origin lacked. */
  lemma SubEntriesAbsent(a: HashMap<seq<Value>>, b: HashMap<seq<Value>>, p: string)
    requires SubEntries(a, b) && !a.Has(p)
    ensures !b.Has(p)
  {
    if b.Has(p) {
      var e :| e in b.entries && e.0 == p by {
        HasIffInKeys(b, p);
        KeyHasEntry(b.entries, p);
      }
      EntryKeyPresent(a, e);
    }
  }

  /** One matching row of the deferred loop: delete, make, register, go on. */
  lemma ResolveDeferredAt(env: Env, st: State, k: string, snapshot: Entries<seq<Value>>, i: nat, fuel: nat)
    requires Deferred in st.storage.order
    requires i < |snapshot| && Str(k) in snapshot[i].1
    ensures
      var p := snapshot[i].0;
      var s2 := st.(storage := st.storage.(deferred := st.storage.deferred.Del(p)));
      var om := Make(env, s2, Str(p), map[], fuel);
      var made := if om.result.Success? then om.result.value else Null;
      var reg := Register(env, om.state, if made.Obj? then made.cls else p);
      ResolveDeferred(env, st, k, snapshot, i, fuel)
      == if om.result.Failure? then Outcome(om.state, Failure(om.result.error))
         else if !made.Obj? then Outcome(om.state, Failure(NotAnObject(TypeName(made))))
         else if reg.result.Failure? then Outcome(reg.state, Failure(reg.result.error))
         else ResolveDeferred(env, reg.state, k, snapshot, i + 1, fuel)
  {
    assert st.Touch(Deferred) == st;
  }

  /** The first deferred provider `p` listing `k` is handled before `k` is
      looked up, for any deferred table and any registrations: its row is
      deleted, then `p` is made, then the object that `make` returned is
      registered. A failure of either step, or a value that is not an
      object, is the failure of `make(k)`; otherwise `p` is no longer
      deferred and the loop goes on with the later rows. When no later row lists `k`,
      `k` is then looked up in the partitions `p`'s registrations left. */
  lemma DeferredProviderRuns(env: Env, st: State, k: string, additional: map<string, Value>, i0: nat, fuel: nat)
    requires AllCreated(st)
    requires i0 < |st.storage.deferred.entries| && Str(k) in st.storage.deferred.entries[i0].1
    requires forall j | 0 <= j < i0 :: Str(k) !in st.storage.deferred.entries[j].1
    ensures
      var snapshot := st.storage.deferred.entries;
      var p := snapshot[i0].0;
      var s2 := st.(storage := st.storage.(deferred := st.storage.deferred.Del(p)));
      var om := Make(env, s2, Str(p), map[], fuel);
      var made := if om.result.Success? then om.result.value else Null;
      var reg := Register(env, om.state, if made.Obj? then made.cls else p);
      var rest := ResolveDeferred(env, reg.state, k, snapshot, i0 + 1, fuel);
      var o := MakeKey(env, st, k, additional, fuel);
      && (om.result.Failure? ==> o == Outcome(om.state, Failure(om.result.error)))
      && (om.result.Success? && !made.Obj? ==> o == Outcome(om.state, Failure(NotAnObject(TypeName(made)))))
      && (om.result.Success? && made.Obj? && reg.result.Failure? ==> o == Outcome(reg.state, Failure(reg.result.error)))
      && (om.result.Success? && made.Obj? && reg.result.Success? ==>
            && !reg.state.storage.deferred.Has(p)
            && o == (if rest.result.Failure? then Outcome(rest.state, Failure(rest.result.error))
                     else FromPartitions(env, rest.state, k, additional, fuel)))
      && (om.result.Success? && made.Obj? && reg.result.Success? &&
          (forall j | i0 < j < |snapshot| :: Str(k) !in snapshot[j].1) ==>
            o == FromPartitions(env, reg.state, k, additional, fuel))
  {
    var snapshot := st.storage.deferred.entries;
    var p := snapshot[i0].0;
    MakeKeyFirstProvider(env, st, k, additional, i0, fuel);
    var s2 := st.(storage := st.storage.(deferred := st.storage.deferred.Del(p)));
    var om := Make(env, s2, Str(p), map[], fuel);
    if om.result.Success? && om.result.value.Obj? && Register(env, om.state, om.result.value.cls).result.Success? {
      var reg := Register(env, om.state, om.result.value.cls);
      assert SubEntries(s2.storage.deferred, reg.state.storage.deferred);
      SubEntriesAbsent(s2.storage.deferred, reg.state.storage.deferred, p);
      if forall j | i0 < j < |snapshot| :: Str(k) !in snapshot[j].1 {
        ResolveDeferredNoMatch(env, reg.state, k, snapshot, i0 + 1, fuel);
      }
    }
  }

  /** A provider whose `register` binds one instance, run on a container
      where that key is free. */
  lemma RegisterOneInstance(env: Env, st: State, p: string, k: string, v: Value)
    requires AllCreated(st) && !st.Has(k)
    requires env.provider(p) == [DoInstance(k, v)]
    ensures Register(env, st, p) == Outcome(Store(st, Instances, k, v), Success(()))
  {
    var cs := env.provider(p);
    assert Instance(st, k, v) == Success(Store(st, Instances, k, v));
    assert ApplyCommand(st, cs[0]) == Success(Store(st, Instances, k, v));
    assert cs[1..] == [];
    var s1 := Store(st, Instances, k, v);
    assert ApplyCommands(s1, []) == Outcome(s1, Success(()));
    assert ApplyCommands(st, cs) == ApplyCommands(s1, cs[1..]);
  }

  /** A deferred provider is made and registered by the first `make` of a
      key it lists, and only then: the key it registers becomes available,
      and the provider is no longer deferred. */
  lemma DeferredProviderRegisters(env: Env, st: State, k: string, p: string, v: Value, fuel: nat)
    requires AllCreated(st)
    requires st.storage.deferred.entries == [(p, [Str(k)])]
    requires !st.storage.aliases.Has(k) && !st.Has(k)
    requires !st.storage.aliases.Has(p) && !st.storage.instances.Has(p)
    requires !st.storage.registry.Has(p) && !st.storage.singletons.Has(p)
    requires NoSeparator(p) && p in env.classes && env.classes[p].instantiable && env.classes[p].ctor.None?
    requires env.construct(p, []).Obj? && env.construct(p, []).cls == p
    requires env.provider(p) == [DoInstance(k, v)]
    ensures
      var o := Make(env, st, Str(k), map[], fuel + 2);
      && o.result == Success(v)
      && o.state.storage.deferred.entries == []
      && o.state.storage.instances.Get(k) == Some(v)
  {
    var s4 := DeferredStepRegisters(env, st, k, p, v, fuel);
    MakeString(env, st, k, map[], fuel + 1);
    TouchCreated(st, Deferred);
    assert MakeKey(env, st, k, map[], fuel + 1) == FromPartitions(env, s4, k, map[], fuel + 1);
    TouchCreated(s4, Instances);
  }

  /** The deferred step of that `make`: delete the row, make the provider,
      run its registrations. Returns the state it ends in. */
  lemma DeferredStepRegisters(env: Env, st: State, k: string, p: string, v: Value, fuel: nat) returns (s4: State)
    requires AllCreated(st)
    requires st.storage.deferred.entries == [(p, [Str(k)])]
    requires !st.Has(k)
    requires !st.storage.aliases.Has(p) && !st.storage.instances.Has(p)
    requires !st.storage.registry.Has(p) && !st.storage.singletons.Has(p)
    requires NoSeparator(p) && p in env.classes && env.classes[p].instantiable && env.classes[p].ctor.None?
    requires env.construct(p, []).Obj? && env.construct(p, []).cls == p
    requires env.provider(p) == [DoInstance(k, v)]
    ensures ResolveDeferred(env, st, k, st.storage.deferred.entries, 0, fuel + 1) == Outcome(s4, Success(()))
    ensures AllCreated(s4) && s4.storage.deferred.entries == []
    ensures s4.storage.instances.Get(k) == Some(v)
    ensures s4.storage.aliases == st.storage.aliases
  {
    var snapshot := st.storage.deferred.entries;
    TouchCreated(st, Deferred);
    var s2 := st.(storage := st.storage.(deferred := st.storage.deferred.Del(p)));
    assert s2.storage.deferred.entries == [];
    assert AllCreated(s2) && NoProviderFor(s2, p);
    MakeUnboundClass(env, s2, p, map[], fuel);
    var s3 := Notified(s2, Str(p), env.construct(p, []));
    KeysInTablesOnly(st.storage, s3.storage, st.storage.order);
    assert AllCreated(s3) && !s3.Has(k);
    RegisterOneInstance(env, s3, p, k, v);
    s4 := Store(s3, Instances, k, v);
    TouchCreated(s3, Instances);
    assert ResolveDeferred(env, s3.(storage := s4.storage).(trace := s3.trace), k, snapshot, 1, fuel + 1)
           == Outcome(s4, Success(()));
  }
  /** `[$object, 'm']` builds `m`'s arguments with the object's class as
      the consumer and calls `m` on that very object. */
  lemma ReflectObjectMethod(env: Env, st: State, cls: string, oid: nat, m: string,
                            additional: map<string, Value>, fuel: nat)
    requires AllCreated(st)
    requires cls in env.classes && m in env.classes[cls].methods
    requires forall i | 0 <= i < |env.classes[cls].methods[m]| :: env.classes[cls].methods[m][i].cls.None?
    ensures
      var params := env.classes[cls].methods[m];
      Reflect(env, st, Arr([Obj(cls, oid), Str(m)]), additional, fuel)
      == Outcome(st, Success(env.invokeMethod(cls, m, Obj(cls, oid), PlainArguments(env, st, cls, params, additional))))
  {
    BuildPlainArguments(env, st, cls, env.classes[cls].methods[m], additional, fuel);
  }

  /** `[$closure, '__invoke']` is the closure itself: the same arguments,
      built under consumer "Closure", and the same call. Only the key the
      notification is fired with differs. */
  lemma ReflectClosureInvoke(env: Env, st: State, id: nat, additional: map<string, Value>, fuel: nat)
    ensures Reflect(env, st, Arr([Closure(id), Str("__invoke")]), additional, fuel)
            == Reflect(env, st, Closure(id), additional, fuel)
    ensures Make(env, st, Arr([Closure(id), Str("__invoke")]), additional, fuel + 1).result
            == Make(env, st, Closure(id), additional, fuel + 1).result
  {
  }

  /** `['C', 'm']` with a class name instead of an object: once `C::m` is
      found, `get_class('C')` throws a `TypeError` that the reflector does
      not catch, so `make` fails before building any argument or making
      `C`, and the container is left as it was. */
  lemma ReflectClassNameMethod(env: Env, st: State, c: string, m: string,
                               additional: map<string, Value>, fuel: nat)
    requires c in env.classes && m in env.classes[c].methods
    ensures Reflect(env, st, Arr([Str(c), Str(m)]), additional, fuel) == Outcome(st, Failure(NotAnObject("string")))
    ensures Make(env, st, Arr([Str(c), Str(m)]), additional, fuel + 1) == Outcome(st, Failure(NotAnObject("string")))
  {
  }
}
