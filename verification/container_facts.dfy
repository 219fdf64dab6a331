/** What the binding operations promise about `has`, `keys` and the
    partitions, including the consequences of the misspelt watch list. */
module ContainerFacts {
  import opened Wrappers
  import opened HashMaps
  import opened Values
  import opened Storage
  import opened Pipes
  import opened Containers

  /** Storing into a watched partition makes the key visible and changes
      no other key's visibility. */
  lemma StoreWatched(st: State, p: Part, k: string, v: Value)
    requires st.Valid() && p.HoldsBindings() && Watched(p)
    ensures Store(st, p, k, v).Valid()
    ensures Store(st, p, k, v).Has(k)
    ensures forall k' | k' != k :: Store(st, p, k, v).Has(k') == st.Has(k')
  {
    var s := st.storage.Touch(p);
    TouchKeepsKeys(st.storage, p);
    var m := s.Table(p).Set(k, v);
    WatchedWrite(s, p, m, k);
    WithTableValid(s, p, m);
  }

  /** Storing into the singleton partition changes nothing `keys()` reports. */
  lemma StoreSingletonInvisible(st: State, k: string, v: Value)
    requires st.Valid()
    ensures Store(st, Singletons, k, v).Valid()
    ensures Store(st, Singletons, k, v).Keys() == st.Keys()
  {
    var s := st.storage.Touch(Singletons);
    TouchKeepsKeys(st.storage, Singletons);
    WatchedParts(Singletons);
    UnwatchedWriteInvisible(s, Singletons, s.Table(Singletons).Set(k, v), s.order);
    WithTableValid(s, Singletons, s.Table(Singletons).Set(k, v));
  }

  /** `instance`, `bind` and `alias` on a free key make exactly that key visible. */
  lemma RegisterMakesVisible(st: State, k: string, v: Value, target: string)
    requires st.Valid() && !st.Has(k)
    ensures Instance(st, k, v).Success? && Instance(st, k, v).value.Has(k)
    ensures IsProducer(v) ==> Bind(st, k, v).Success? && Bind(st, k, v).value.Has(k)
    ensures Alias(st, k, target).Success? && Alias(st, k, target).value.Has(k)
    ensures forall k' | k' != k :: Instance(st, k, v).value.Has(k') == st.Has(k')
    ensures IsProducer(v) ==> forall k' | k' != k :: Bind(st, k, v).value.Has(k') == st.Has(k')
    ensures forall k' | k' != k :: Alias(st, k, target).value.Has(k') == st.Has(k')
  {
    WatchedParts(Instances);
    WatchedParts(Registry);
    WatchedParts(Aliases);
    StoreWatched(st, Instances, k, v);
    StoreWatched(st, Registry, k, v);
    StoreWatched(st, Aliases, k, Str(target));
  }

  /** Once `instance`, `bind` or `alias` has registered a key, each of
      `instance`, `bind`, `singleton` and `alias` on that key fails. */
  lemma SecondRegistrationFails(st: State, k: string, v: Value, w: Value, target: string)
    requires st.Valid() && !st.Has(k) && IsProducer(w)
    ensures
      var first := Instance(st, k, v).value;
      && Instance(first, k, w) == Failure(DuplicateKey(k))
      && Bind(first, k, w) == Failure(DuplicateKey(k))
      && Singleton(first, k, w) == Failure(DuplicateKey(k))
      && Alias(first, k, target) == Failure(DuplicateKey(k))
    ensures
      var first := Bind(st, k, w).value;
      && Instance(first, k, v) == Failure(DuplicateKey(k))
      && Bind(first, k, w) == Failure(DuplicateKey(k))
      && Singleton(first, k, w) == Failure(DuplicateKey(k))
      && Alias(first, k, target) == Failure(DuplicateKey(k))
    ensures
      var first := Alias(st, k, target).value;
      && Instance(first, k, v) == Failure(DuplicateKey(k))
      && Bind(first, k, w) == Failure(DuplicateKey(k))
      && Singleton(first, k, w) == Failure(DuplicateKey(k))
      && Alias(first, k, target) == Failure(DuplicateKey(k))
  {
    RegisterMakesVisible(st, k, v, target);
    RegisterMakesVisible(st, k, w, target);
  }

  /** A registered but unresolved singleton is invisible: `has` stays false,
      `keys()` is unchanged, and a second `singleton` on the same key is
      accepted and overwrites the producer. */
  lemma SingletonInvisible(env: Env, st: State, k: string, p: Value, q: Value)
    requires st.Valid() && !st.Has(k) && IsProducer(p) && IsProducer(q)
    ensures Singleton(st, k, p).Success?
    ensures Singleton(st, k, p).value.Keys() == st.Keys()
    ensures !Singleton(st, k, p).value.Has(k)
    ensures Singleton(Singleton(st, k, p).value, k, q).Success?
    ensures Singleton(Singleton(st, k, p).value, k, q).value.storage.singletons.Get(k) == Some(q)
    ensures Decorator(env, Singleton(st, k, p).value, k, p) == Failure(MissingTarget(k))
    ensures Fork(Singleton(st, k, p).value, k) == Failure(MissingTarget(k))
    ensures !Forget(Singleton(st, k, p).value, k).0
  {
    StoreSingletonInvisible(st, k, p);
    var st1 := Store(st, Singletons, k, p);
    ForgetSpec(st1.storage, k);
  }

  /** `decorator` replaces the stored entry by the transform of the previous
      one (a transform that is not a Closure is the new value itself), in
      the partition that held it, and nothing else. */
  lemma DecoratorSpec(env: Env, st: State, k: string, transform: Value)
    requires st.Valid() && st.Has(k)
    ensures
      var p := st.storage.SourceRef(k).value;
      var previous := st.storage.Table(p).Get(k).value;
      var r := Decorator(env, st, k, transform).value;
      && p.HoldsBindings()
      && r.storage.Table(p).Get(k)
         == Some(if transform.Closure? then env.transform(transform.id, previous) else transform)
      && (forall k' | k' != k :: r.storage.Table(p).Get(k') == st.storage.Table(p).Get(k'))
      && r.storage.Table(p).Keys() == st.storage.Table(p).Keys()
      && (forall q: Part | q.HoldsBindings() && q != p :: r.storage.Table(q) == st.storage.Table(q))
      && r.storage.order == st.storage.order
      && r.storage.context == st.storage.context && r.storage.deferred == st.storage.deferred
      && r.pipe == st.pipe && r.trace == st.trace
      && r.Keys() == st.Keys()
      && r.storage.SourceRef(k) == st.storage.SourceRef(k)
      && r.Valid()
  {
    var p, v := DecoratorWrites(env, st, k, transform);
    OverwriteKeepsShape(st.storage, p, k, v);
  }

  /** Overwriting a present entry of a created partition keeps the
      partition's keys, `keys()`, the key's source and validity. */
  lemma OverwriteKeepsShape(s: Storage, p: Part, k: string, v: Value)
    requires s.Valid() && p.HoldsBindings() && p in s.order && s.Table(p).Has(k)
    ensures
      var r := s.WithTable(p, s.Table(p).Set(k, v));
      && r.Table(p).Keys() == s.Table(p).Keys()
      && r.Keys() == s.Keys()
      && r.SourceRef(k) == s.SourceRef(k)
      && r.Valid()
  {
    var m := s.Table(p).Set(k, v);
    var r := s.WithTable(p, m);
    assert m.Keys() == s.Table(p).Keys();
    assert forall q: Part | q.HoldsBindings() :: r.Table(q).Keys() == s.Table(q).Keys();
    KeysSameWhenKeysSame(s, r, s.order);
    forall q: Part
      ensures s.Holds(q, k) == r.Holds(q, k)
    {
      if q.HoldsBindings() {
        HasIffInKeys(s.Table(q), k);
        HasIffInKeys(r.Table(q), k);
      }
    }
    FirstWithSameHolds(s, r, s.order, k);
    WithTableValid(s, p, m);
  }

  /** The one write `decorator` makes: entry `k` of its source partition. */
  lemma DecoratorWrites(env: Env, st: State, k: string, transform: Value) returns (p: Part, v: Value)
    requires st.Valid() && st.Has(k)
    ensures st.storage.SourceRef(k).Some? && p == st.storage.SourceRef(k).value && p.HoldsBindings()
    ensures p in st.storage.order && st.storage.Table(p).Has(k)
    ensures v == if transform.Closure? then env.transform(transform.id, st.storage.Table(p).Get(k).value) else transform
    ensures Decorator(env, st, k, transform) == Success(st.(storage := st.storage.WithTable(p, st.storage.Table(p).Set(k, v))))
  {
    HasIff(st.storage, k);
    p := st.storage.SourceRef(k).value;
    WatchedParts(p);
    HasIffInKeys(st.storage.Table(p), k);
    var previous := st.storage.Table(p).Get(k).value;
    v := if transform.Closure? then env.transform(transform.id, previous) else transform;
  }

  lemma {:induction false} KeysSameWhenKeysSame(s: Storage, r: Storage, ps: seq<Part>)
    requires forall q: Part | q.HoldsBindings() :: r.Table(q).Keys() == s.Table(q).Keys()
    ensures r.KeysIn(ps) == s.KeysIn(ps)
    decreases |ps|
  {
    if |ps| > 0 {
      KeysSameWhenKeysSame(s, r, ps[1..]);
    }
  }

  /** Decorators compose: the second one receives the first one's result,
      not the original value. */
  lemma DecoratorsCompose(env: Env, st: State, k: string, f: nat, g: nat)
    requires st.Valid() && st.Has(k)
    ensures
      var p := st.storage.SourceRef(k).value;
      var once := Decorator(env, st, k, Closure(f)).value;
      var twice := Decorator(env, once, k, Closure(g));
      && p.HoldsBindings()
      && twice.Success?
      && twice.value.storage.Table(p).Get(k)
         == Some(env.transform(g, env.transform(f, st.storage.Table(p).Get(k).value)))
  {
    DecoratorSpec(env, st, k, Closure(f));
    var once := Decorator(env, st, k, Closure(f)).value;
    HasIff(st.storage, k);
    HasIff(once.storage, k);
    DecoratorSpec(env, once, k, Closure(g));
  }

  /** A value stored with `instance` is what `fork` hands out afterwards,
      and a `decorator` afterwards stores the transform of it. */
  lemma InstanceThenForkAndDecorate(env: Env, st: State, k: string, v: Value, f: nat)
    requires st.Valid() && !st.Has(k)
    ensures Fork(Instance(st, k, v).value, k) == Success(v)
    ensures Decorator(env, Instance(st, k, v).value, k, Closure(f)).Success?
    ensures Decorator(env, Instance(st, k, v).value, k, Closure(f)).value.storage.instances.Get(k)
            == Some(env.transform(f, v))
  {
    WatchedParts(Instances);
    StoreWatched(st, Instances, k, v);
    var st1 := Instance(st, k, v).value;
    assert st1 == Store(st, Instances, k, v);
    SourceIsInstances(st, k, v);
    assert st1.storage.Table(Instances).Get(k) == Some(v);
    DecoratorSpec(env, st1, k, Closure(f));
  }

  /** After `instance` on a free key, the instance partition is where
      `getSourceReference` finds it. */
  lemma SourceIsInstances(st: State, k: string, v: Value)
    requires st.Valid() && !st.Has(k)
    ensures Instance(st, k, v).Success?
    ensures Instance(st, k, v).value.storage.SourceRef(k) == Some(Instances)
  {
    var st1 := Instance(st, k, v).value;
    HasIff(st.storage, k);
    WatchedParts(Instances);
    forall q: Part | q != Instances
      ensures !st1.storage.Holds(q, k)
    {
      if q.HoldsBindings() {
        assert st1.storage.Table(q) == st.storage.Table(q);
        if q !in st.storage.order {
          assert st.storage.IsEmptyPart(q);
          HasIffInKeys(st.storage.Table(q), k);
        }
      }
    }
    assert st1.storage.Holds(Instances, k);
  }

  /** `forget` after `instance` on a free key removes it again. */
  lemma InstanceThenForget(st: State, k: string, v: Value)
    requires st.Valid() && !st.Has(k)
    ensures Forget(Instance(st, k, v).value, k).0
    ensures !Forget(Instance(st, k, v).value, k).1.storage.instances.Has(k)
  {
    RegisterMakesVisible(st, k, v, "");
    var st1 := Instance(st, k, v).value;
    ForgetSpec(st1.storage, k);
    WatchedParts(Instances);
    SourceIsInstances(st, k, v);
  }

  /** `defer` registers a provider without making any key visible. */
  lemma DeferInvisible(st: State, provider: string, provided: Value)
    requires st.Valid()
    ensures Defer(st, provider, provided).Keys() == st.Keys()
  {
    TouchKeepsKeys(st.storage, Deferred);
    var s := st.storage.Touch(Deferred);
    KeysInTablesOnly(s, Defer(st, provider, provided).storage, s.order);
  }

  /** After `context(c, n, v)` the override for `(c, n)` is `v` — even a null
      `v` counts as an override — every other row is as before, and
      `keys()` is unchanged. */
  lemma ContextSpec(st: State, c: string, n: string, v: Value)
    requires st.Valid()
    ensures GetOverride(SetContext(st, c, n, v), c, n) == Some(v)
    ensures IsOverriden(SetContext(st, c, n, v), c, n)
    ensures forall c', n' | c' != c || n' != n ::
      GetOverride(SetContext(st, c, n, v), c', n') == GetOverride(st, c', n')
    ensures forall c', n' | c' != c || n' != n ::
      IsOverriden(SetContext(st, c, n, v), c', n') == IsOverriden(st, c', n')
    ensures SetContext(st, c, n, v).Keys() == st.Keys()
  {
    TouchKeepsKeys(st.storage, Context);
    var s := st.storage.Touch(Context);
    KeysInTablesOnly(s, SetContext(st, c, n, v).storage, s.order);
  }
}
