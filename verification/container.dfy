/** `Container` and `Di` without the resolver: the container state, the
    binding operations (`instance`, `singleton`, `bind`, `alias`, `decorator`,
    `fork`, `forget`, `flush`, `defer`, `resolving`) and the per-consumer
    context-override table of `Di`. Every operation is a pure transition
    from one state to the next. */
module Containers {
  import opened Wrappers
  import opened HashMaps
  import opened Values
  import opened Storage
  import opened Pipes

  /** One `fire` call: the key it was fired with, the value, and the
      listeners that were called, in order. */
  datatype Fired = Fired(key: Value, value: Value, listeners: seq<nat>)

  /** The container: its storage, its listener table, and the notifications
      fired so far. */
  datatype State = State(storage: Storage, pipe: Pipe, trace: seq<Fired>) {
    predicate Valid() {
      storage.Valid() && pipe.bindings.Valid()
    }

    /** `has($key)`. */
    predicate Has(k: string) {
      storage.Has(k)
    }

    /** `keys()`. */
    function Keys(): seq<string> {
      storage.Keys()
    }

    function Touch(p: Part): State {
      this.(storage := storage.Touch(p))
    }
  }

  /** A new container: no partition, no listener, nothing fired. */
  function NewContainer(): (st: State)
    ensures st.Valid() && st.Keys() == []
    ensures st.storage.order == [] && forall p: Part :: st.storage.IsEmptyPart(p)
    ensures st.trace == [] && forall k :: st.pipe.Listeners(k) == []
  {
    State(Fresh(), NoListeners(), [])
  }

  /** The kinds of `ContainerException`, and the `TypeError`s the model
      keeps: `IllegalKey` for a key of the wrong type, `NotAnObject` for
      `get_class()` of a non-object (PHP 8). `Reflection` wraps a
      `ReflectionException`, keeping its cause. */
  datatype Error =
    | DuplicateKey(key: string)
    | InvalidProducer(given: string)
    | MissingTarget(key: string)
    | NotClosure(given: string)
    | NotInstantiable(cls: string)
    | Reflection(cause: ReflectionError)
    | IllegalKey(given: string)
    | NotAnObject(given: string)
    | OutOfFuel

  /** `check($key)`: registering over a visible key is refused. */
  function Check(st: State, k: string): (r: Result<State, Error>)
    ensures r.Success? <==> !st.Has(k)
    ensures r.Success? ==> r.value == st
    ensures r.Failure? ==> r.error == DuplicateKey(k)
  {
    if st.Has(k) then Failure(DuplicateKey(k)) else Success(st)
  }

  /** Store `v` under `k` in partition `p`, creating `p` first if needed. */
  function Store(st: State, p: Part, k: string, v: Value): State
    requires p.HoldsBindings()
  {
    var s := st.storage.Touch(p);
    st.(storage := s.WithTable(p, s.Table(p).Set(k, v)))
  }

  /** `r` differs from `st` only in entry `k` of partition `p`, and in `p`
      having been created when it did not exist: a new key goes last in `p`,
      an existing one keeps its place, every other entry of `p`,
      every other partition, the context and deferred tables, the listeners
      and the notifications are as before. */
  ghost predicate OnlyEntryChanged(st: State, r: State, p: Part, k: string)
    requires p.HoldsBindings()
  {
    && r.storage.order == st.storage.Touch(p).order
    && (forall k' | k' != k :: r.storage.Table(p).Get(k') == st.storage.Table(p).Get(k'))
    && r.storage.Table(p).Keys()
       == (if st.storage.Table(p).Has(k) then st.storage.Table(p).Keys() else st.storage.Table(p).Keys() + [k])
    && (forall q: Part | q.HoldsBindings() && q != p :: r.storage.Table(q) == st.storage.Table(q))
    && r.storage.context == st.storage.context && r.storage.deferred == st.storage.deferred
    && r.pipe == st.pipe && r.trace == st.trace
  }

  /** `instance($key, $value)`. */
  function Instance(st: State, k: string, v: Value): (r: Result<State, Error>)
    ensures r.Failure? <==> st.Has(k)
    ensures r.Failure? ==> r.error == DuplicateKey(k)
    ensures r.Success? ==> r.value.storage.instances.Get(k) == Some(v)
    ensures r.Success? ==> OnlyEntryChanged(st, r.value, Instances, k)
  {
    var _ :- Check(st, k);
    Success(Store(st, Instances, k, v))
  }

  /** `singleton($key, $producer)`: the producer type is checked before the key. */
  function Singleton(st: State, k: string, producer: Value): (r: Result<State, Error>)
    ensures !IsProducer(producer) ==> r == Failure(InvalidProducer(TypeName(producer)))
    ensures IsProducer(producer) ==> (r.Failure? <==> st.Has(k))
    ensures r.Success? ==> r.value.storage.singletons.Get(k) == Some(producer)
    ensures r.Success? ==> OnlyEntryChanged(st, r.value, Singletons, k)
  {
    if !IsProducer(producer) then Failure(InvalidProducer(TypeName(producer)))
    else
      var _ :- Check(st, k);
      Success(Store(st, Singletons, k, producer))
  }

  /** `bind($key, $producer)`: a factory, run afresh on every `make`. */
  function Bind(st: State, k: string, producer: Value): (r: Result<State, Error>)
    ensures !IsProducer(producer) ==> r == Failure(InvalidProducer(TypeName(producer)))
    ensures IsProducer(producer) ==> (r.Failure? <==> st.Has(k))
    ensures r.Success? ==> r.value.storage.registry.Get(k) == Some(producer)
    ensures r.Success? ==> OnlyEntryChanged(st, r.value, Registry, k)
  {
    if !IsProducer(producer) then Failure(InvalidProducer(TypeName(producer)))
    else
      var _ :- Check(st, k);
      Success(Store(st, Registry, k, producer))
  }

  /** `alias($alias, $abstract)`. */
  function Alias(st: State, alias: string, target: string): (r: Result<State, Error>)
    ensures r.Failure? <==> st.Has(alias)
    ensures r.Failure? ==> r.error == DuplicateKey(alias)
    ensures r.Success? ==> r.value.storage.aliases.Get(alias) == Some(Str(target))
    ensures r.Success? ==> OnlyEntryChanged(st, r.value, Aliases, alias)
  {
    var _ :- Check(st, alias);
    Success(Store(st, Aliases, alias, Str(target)))
  }

  /** `isAlias($key)`; reading the partition creates it. */
  function IsAlias(st: State, k: string): (r: (bool, State))
    ensures r.0 <==> st.storage.aliases.Has(k)
    ensures Aliases in r.1.storage.order
    ensures r.1.storage.order == st.storage.Touch(Aliases).order
    ensures r.1.storage.(order := st.storage.order) == st.storage
    ensures r.1.trace == st.trace && r.1.pipe == st.pipe
  {
    var s := st.Touch(Aliases);
    (s.storage.aliases.Has(k), s)
  }

  /** `decorator($key, $transform)`: replace the raw entry of the first
      watched partition holding `k` by the transform of it; a transform that
      is not a Closure replaces it by itself. */
  function Decorator(env: Env, st: State, k: string, transform: Value): (r: Result<State, Error>)
    ensures r.Failure? <==> !st.Has(k)
    ensures r.Failure? ==> r.error == MissingTarget(k)
  {
    if !st.Has(k) then Failure(MissingTarget(k))
    else
      HasIff(st.storage, k);
      var p := st.storage.SourceRef(k).value;
      WatchedParts(p);
      var previous := st.storage.Table(p).Get(k).value;
      var v := if transform.Closure? then env.transform(transform.id, previous) else transform;
      Success(st.(storage := st.storage.WithTable(p, st.storage.Table(p).Set(k, v))))
  }

  /** `fork($key, $callback)`: the copy of the raw stored value the callback
      is handed. The state is not an output: storage is left untouched. */
  function Fork(st: State, k: string): (r: Result<Value, Error>)
    ensures r.Failure? <==> !st.Has(k)
    ensures r.Failure? ==> r.error == MissingTarget(k)
  {
    if !st.Has(k) then Failure(MissingTarget(k))
    else
      HasIff(st.storage, k);
      var p := st.storage.SourceRef(k).value;
      WatchedParts(p);
      Success(st.storage.Table(p).Get(k).value)
  }

  /** `forget($key)`. */
  function Forget(st: State, k: string): (r: (bool, State))
    ensures r.0 <==> st.Has(k)
    ensures !st.Has(k) ==> r.1 == st
    ensures st.Has(k) ==> !r.1.storage.Table(st.storage.SourceRef(k).value).Has(k)
    ensures r.1.pipe == st.pipe && r.1.trace == st.trace
  {
    ForgetSpec(st.storage, k);
    var (deleted, s) := st.storage.Forget(k);
    (deleted, st.(storage := s))
  }

  /** `flush()`: storage only; listeners stay subscribed. */
  function FlushAll(st: State): (r: State)
    ensures r.Keys() == [] && r.pipe == st.pipe && r.trace == st.trace
    ensures r.storage.Valid() && r.storage.order == [] && forall p: Part :: r.storage.IsEmptyPart(p)
    ensures r.storage.context.Keys() == [] && r.storage.deferred.Keys() == []
  {
    st.(storage := Flush(st.storage))
  }

  /** `defer($provider, $provides)`: `(array) $provides` under the provider's class name. */
  function Defer(st: State, provider: string, provided: Value): (r: State)
    ensures r.storage.deferred.Get(provider) == Some(ToArray(provided))
    ensures forall p' | p' != provider :: r.storage.deferred.Get(p') == st.storage.deferred.Get(p')
    ensures st.storage.deferred.Has(provider) ==> r.storage.deferred.Keys() == st.storage.deferred.Keys()
    ensures !st.storage.deferred.Has(provider) ==> r.storage.deferred.Keys() == st.storage.deferred.Keys() + [provider]
    ensures r.storage.order == st.storage.Touch(Deferred).order
    ensures r.storage.(deferred := st.storage.deferred, order := st.storage.order) == st.storage
    ensures r.pipe == st.pipe && r.trace == st.trace
  {
    var s := st.storage.Touch(Deferred);
    st.(storage := s.(deferred := s.deferred.Set(provider, ToArray(provided))))
  }

  /** `resolving($callback)`, the one-argument form: only a Closure is accepted. */
  function ResolvingAll(st: State, target: Value): (r: Result<State, Error>)
    ensures !target.Closure? ==> r == Failure(NotClosure(TypeName(target)))
    ensures target.Closure? ==> r.Success? && r.value.pipe == st.pipe.All(target.id)
    ensures r.Success? ==> r.value.storage == st.storage && r.value.trace == st.trace
  {
    if !target.Closure? then Failure(NotClosure(TypeName(target)))
    else Success(st.(pipe := st.pipe.All(target.id)))
  }

  /** `resolving($key, $callback)`, the two-argument form. */
  function ResolvingKey(st: State, k: string, cb: nat): (r: State)
    ensures r.pipe.Listeners(k) == st.pipe.Listeners(k) + [cb]
    ensures forall k' | k' != k :: r.pipe.Listeners(k') == st.pipe.Listeners(k')
    ensures r.storage == st.storage && r.trace == st.trace
  {
    st.(pipe := st.pipe.On(k, cb))
  }

  // ---------------------------------------------------------------- Di

  /** `context($concrete, $needs, $implementation)`: one row of the
      context-override table, creating the consumer's table when needed. */
  function SetContext(st: State, concrete: string, needs: string, impl: Value): (r: State)
    ensures GetOverride(r, concrete, needs) == Some(impl)
    ensures r.storage.order == st.storage.Touch(Context).order
    ensures r.storage.(context := st.storage.context, order := st.storage.order) == st.storage
    ensures r.pipe == st.pipe && r.trace == st.trace
  {
    var s := st.storage.Touch(Context);
    var table := if s.context.Has(concrete) then s.context.Get(concrete).value else Empty();
    st.(storage := s.(context := s.context.Set(concrete, table.Set(needs, impl))))
  }

  /** `isOverriden($concrete, $needs)`. PHP's `isset` on an `ArrayAccess`
      object asks only `offsetExists`, so a row whose value is null counts. */
  predicate IsOverriden(st: State, concrete: string, needs: string) {
    st.storage.context.Has(concrete) && st.storage.context.Get(concrete).value.Has(needs)
  }

  /** `getOverride($concrete, $needs)`. */
  function GetOverride(st: State, concrete: string, needs: string): (r: Option<Value>)
    ensures r.Some? <==> IsOverriden(st, concrete, needs)
  {
    if st.storage.context.Has(concrete) then
      HasIffInKeys(st.storage.context.Get(concrete).value, needs);
      st.storage.context.Get(concrete).value.Get(needs)
    else None
  }

  /** The state after a step that may fail, and what the step produced.
      A failure keeps the state reached so far: PHP undoes nothing when an
      exception propagates. */
  datatype Outcome<T> = Outcome(state: State, result: Result<T, Error>)

  /** Apply one provider registration, through the public operations. */
  function ApplyCommand(st: State, c: Command): (r: Result<State, Error>)
    ensures r.Success? ==> r.value.trace == st.trace && r.value.pipe == st.pipe
    ensures r.Success? ==> forall p | p in st.storage.order :: p in r.value.storage.order
    ensures r.Success? ==> r.value.storage.deferred == st.storage.deferred
  {
    match c
    case DoInstance(k, v) => Instance(st, k, v)
    case DoSingleton(k, p) => Singleton(st, k, p)
    case DoBind(k, p) => Bind(st, k, p)
    case DoAlias(a, t) => Alias(st, a, t)
    case DoContext(c, n, v) => Success(SetContext(st, c, n, v))
  }

  /** A provider's `register($container)`: its registrations in order, the
      first failure aborting the rest. */
  function ApplyCommands(st: State, cs: seq<Command>): (r: Outcome<()>)
    ensures r.state.trace == st.trace && r.state.pipe == st.pipe
    ensures r.state.storage.deferred == st.storage.deferred
    ensures forall p | p in st.storage.order :: p in r.state.storage.order
    decreases |cs|
  {
    if |cs| == 0 then Outcome(st, Success(()))
    else
      match ApplyCommand(st, cs[0])
      case Failure(e) => Outcome(st, Failure(e))
      case Success(st1) => ApplyCommands(st1, cs[1..])
  }

  /** `register($provider)`: run the provider's registrations now. */
  function Register(env: Env, st: State, provider: string): (r: Outcome<()>)
    ensures r.state.storage.deferred == st.storage.deferred
    ensures forall p | p in st.storage.order :: p in r.state.storage.order
  {
    ApplyCommands(st, env.provider(provider))
  }
}
