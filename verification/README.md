# Reservoir container, modelled in Dafny

Reservoir is a small PHP dependency-injection container. It keeps a registry
of keys. Each key is bound to an instance, a factory, a singleton producer
or an alias. It also keeps deferred service providers, per-consumer context
overrides (`Di::context`, `ContextBinder`) and "resolved" listeners (`Pipe`).
`make` turns a key or a callable into a value. It follows one alias hop,
registers the deferred providers that list the key, then looks in the
partitions in precedence order. When no partition holds the key, it builds
the value by reflection (`Reflector`): constructor and method parameters
are filled from explicit arguments, context overrides, autowiring or
defaults.

The model is functional. A container is an immutable `State`:

- the partitioned storage (`PersistentStorage`);
- the listener table (`Pipe`);
- the list of notifications fired so far, each with the listeners it reached.

Every public operation is a pure function from a state to the next state.
Operations that can throw return a `Result`, or an `Outcome` that keeps the
state reached before the failure.

Modules, one per source class or concern:

- `HashMaps` (`HashMap`): an ordered map with distinct keys, stored as a sequence of entries.
- `Storage` (`PersistentStorage`): typed partitions, created lazily, plus the order in which they were created. `keys()` and `has()` only look at the partitions on the watch list.
- `Pipes` (`Pipe`): listener ids per binding key, and the order in which `fire` calls them.
- `Values`: the PHP values the container stores and the reflection metadata of classes.
- `Containers` (`Container` and `Di` without the resolver): `instance`, `singleton`, `bind`, `alias`, `decorator`, `fork`, `forget`, `flush`, `defer`, `resolving`, `register`, and the context table.
- `ContextBinders` (`ContextBinder`).
- `Resolution` (`Container::make`, `resolve`, `resolveDeferred`, `makes`, and `Reflector`): one group of mutually recursive functions.
- `ContainerFacts` and `ResolutionFacts`: the properties, as lemmas.

Reflection and calls into user code are parameters of the model, collected in `Env`:

- the classes with their constructor and method parameters;
- constructing an object;
- invoking a method or closure;
- calling a closure with the container;
- a decorator's transform;
- each provider's registrations.

Points where the model follows the code rather than the documentation:

- The watch list of `PersistentStorage` spells the singleton partition "singletones". The singleton partition is therefore never watched. An unresolved singleton is invisible to `has`, `keys`, `check`, `decorator`, `fork` and `forget`, and a second `singleton` on the same key overwrites the first. The model keeps this behaviour.
- `isOverriden` uses `isset` on nested `HashMap` objects. PHP answers `isset` on an `ArrayAccess` object with `offsetExists` alone, and `HashMap::offsetExists` is `array_key_exists`. So a row stored with a null value counts as an override. The model follows the code, not the null-means-absent reading.
- `Reflector` calls `isOverriden`, `getOverride` and the private `Container::resolve`. The model treats `Container` and `Di` as one state, so the argument builder can reach all three.

## Model

| member | source | states |
|---|---|---|
| HashMaps.HashMap.Set | src/Reservoir/HashMap.php:57-60 | the key maps to the new value, every other key is unchanged, an existing key keeps its position and a new key goes last, and key uniqueness is preserved |
| HashMaps.HashMap.Del | src/Reservoir/HashMap.php:81-84 | the key is gone, every other key keeps its value, the remaining keys are the old keys with this one cut out, in their old order, deleting an absent key changes nothing, and no entry is invented |
| HashMaps.FilterUnique | src/Reservoir/HashMap.php:81-84 | with distinct keys, deleting the key at position i leaves the keys before it and the keys after it, in order |
| HashMaps.HashMap.Clear | src/Reservoir/HashMap.php:111-114 | afterwards there are no keys, the count is zero and no key is present |
| HashMaps.Empty | src/Reservoir/HashMap.php:30-33 | a new map is valid and has no key |
| HashMaps.HasIffInKeys | src/Reservoir/HashMap.php:42-72 | `has` holds exactly when the key is among `keys()`, whatever value it stores (a null value counts), and `get` finds nothing exactly for keys not among `keys()` |
| HashMaps.HashMap.Count | src/Reservoir/HashMap.php:131-134 | `count()` equals the number of keys and the number of values |
| HashMaps.ValuesAligned | src/Reservoir/HashMap.php:91-104 | the i-th entry of `values()` is the value stored under the i-th entry of `keys()` |
| HashMaps.SetKeepsOrder | src/Reservoir/HashMap.php:57-60 | a fresh key is appended; re-assigning it keeps its position and replaces its value |
| HashMaps.OffsetAliases | src/Reservoir/HashMap.php:141-174 | `offsetExists`, `offsetGet`, `offsetSet` and `offsetUnset` behave as `has`, `get`, `set` and `del` |
| Storage.WatchedParts | src/Reservoir/PersistentStorage.php:23 | the watched partitions are exactly aliases, instances and registry; the singleton partition is not watched because the list spells it "singletones" |
| Storage.Storage.Touch | src/Reservoir/PersistentStorage.php:112-119 | reading a partition that is missing creates it and puts it last in the creation order; an existing partition is left as it is; nothing else changes |
| Storage.Storage.Keys | src/Reservoir/PersistentStorage.php:42-52 | a key is among `keys()` exactly when some created, watched partition holds it |
| Storage.Storage.SourceRef | src/Reservoir/PersistentStorage.php:84-93 | `getSourceReference` finds a partition exactly when `has` holds; it is the first created, watched partition holding the key |
| Storage.Storage.Forget | src/Reservoir/PersistentStorage.php:62-75 | `forget` returns true exactly when the key is present; then the partition `getSourceReference` found no longer has it; an absent key changes nothing; the partition order and the context and deferred tables are kept |
| Storage.Storage.FirstWith | src/Reservoir/PersistentStorage.php:84-93 | the partition found is the first watched one, in creation order, that holds the key; none is found exactly when the key is not among `keys()` |
| Storage.Fresh | src/Reservoir/PersistentStorage.php:18 | new storage has no partition created and every partition, the unwatched singleton one included, empty |
| Storage.Flush | src/Reservoir/PersistentStorage.php:100-103 | `flush` drops every partition: none is left in the creation order and every one, singletons included, is empty, so no key is present |
| Storage.KeysInAppend | src/Reservoir/PersistentStorage.php:42-52 | `keys()` concatenates the watched partitions' keys in partition creation order |
| Storage.HasIff | src/Reservoir/PersistentStorage.php:32-35 | `has` holds exactly when some watched partition holds the key, and exactly when `getSourceReference` finds one |
| Storage.TouchKeepsKeys | src/Reservoir/PersistentStorage.php:112-119 | creating a partition on read keeps the storage valid and leaves `keys()` unchanged |
| Storage.UnwatchedWriteInvisible | src/Reservoir/PersistentStorage.php:42-52 | writing into an unwatched partition does not change `keys()` |
| Storage.WatchedWrite | src/Reservoir/PersistentStorage.php:32-52 | writing a key into a watched, existing partition makes that key present and changes no other key's presence |
| Storage.ForgetSpec | src/Reservoir/PersistentStorage.php:62-75 | `forget` returns true exactly when the key was present; it then deletes it from the first watched partition holding it and from no other partition, the other keys there keeping their order; an absent key leaves storage unchanged |
| Pipes.Pipe.On | src/Reservoir/Pipe.php:32-39 | the callback is appended to the key's listeners, other keys' listeners are unchanged, and a new binding key goes last |
| Pipes.Pipe.All | src/Reservoir/Pipe.php:48-51 | `all` is `on('*')`: the callback is appended to the wildcard listeners only |
| Pipes.NoListeners | src/Reservoir/Pipe.php:22 | a new pipe has no listener under any key |
| Pipes.Pipe.Fire | src/Reservoir/Pipe.php:62-71 | on a well-formed table and a string key other than "*", `fire` calls the wildcard's and the key's listeners, as the reference `Expected` orders them |
| Pipes.FireFromCharacterised | src/Reservoir/Pipe.php:62-71 | walking the bindings calls exactly the wildcard's and the key's listeners, grouped by binding key in the order the keys were first subscribed |
| Pipes.FireOrder | src/Reservoir/Pipe.php:62-71 | `fire(k)` calls the wildcard listeners then k's listeners, or the other way round, according to which binding key was subscribed first; within a key, in registration order |
| Pipes.WildcardFirst | src/Reservoir/Pipe.php:62-71 | a wildcard listener subscribed before a key listener runs first, and one subscribed after runs last |
| Pipes.FireCallableKey | src/Reservoir/Pipe.php:65 | under strict comparison, a closure or array key, or the string "*", reaches only the wildcard listeners |
| Pipes.FireNobody | src/Reservoir/Pipe.php:62-71 | with no listener under the key and none under "*", `fire` calls nothing |
| Values.ToArray | src/Reservoir/Container.php:350 | the `(array)` cast: an array stays as it is, null becomes the empty array, and any other value becomes a one-element array |
| Values.Param.Abstract | src/Reservoir/Reflector.php:44-54 | a parameter's identity is its class name when it has one, and otherwise "$" followed by its name |
| Containers.NewContainer | src/Reservoir/Container.php:35-40 | a new container is valid, has no partition created and every partition empty, no listener under any key and no notification |
| Containers.Check | src/Reservoir/Container.php:71-78 | `check` succeeds exactly when the key is absent, and fails with the duplicate-key error otherwise |
| Containers.Instance | src/Reservoir/Container.php:112-118 | `instance` fails exactly when the key is present, with the duplicate-key error; otherwise the value is stored in the instance partition, as its last key when it was not there already, and nothing else changes: no other entry or partition, not the context or deferred tables, the listeners or the notifications; the partition is created last in order if it was missing |
| Containers.Singleton | src/Reservoir/Container.php:130-145 | a producer that is neither a string nor a Closure is refused first, naming its type; a valid producer is refused exactly when the key is present, and otherwise stored in the singleton partition with nothing else changed (the same frame as `instance`) |
| Containers.Bind | src/Reservoir/Container.php:157-172 | as `singleton`, but the producer is stored in the registry partition, with nothing else changed (the same frame as `instance`) |
| Containers.Alias | src/Reservoir/Container.php:184-190 | `alias` fails exactly when the alias name is present, with the duplicate-key error; otherwise it stores the target under the alias with nothing else changed (the same frame as `instance`) |
| Containers.IsAlias | src/Reservoir/Container.php:199-202 | `isAlias` holds exactly when the alias partition has the key; reading it creates the partition, last in order when it was missing, and changes nothing else: no table, the listeners or the notifications |
| Containers.Decorator | src/Reservoir/Container.php:214-226 | `decorator` fails exactly when the key is absent, with the missing-target error |
| Containers.Fork | src/Reservoir/Container.php:245-252 | `fork` fails exactly when the key is absent, with the missing-target error |
| Containers.Forget | src/Reservoir/Container.php:277-280 | `forget` returns true exactly when the key is present, and then the partition that held it no longer has it; an absent key changes nothing; listeners and notifications are kept |
| Containers.FlushAll | src/Reservoir/Container.php:287-290 | `flush` drops every partition, singletons, context and deferred included, and keeps every listener and notification |
| Containers.Defer | src/Reservoir/Container.php:348-351 | `defer` stores the `(array)` cast of the provided keys under the provider, creates the deferred partition if needed, keeps every other provider's row and the rows' order (a new provider goes last), and changes no other table, the listeners or the notifications |
| Containers.ResolvingAll | src/Reservoir/Container.php:365-375 | the one-argument `resolving` refuses anything but a Closure, naming its type; a Closure is added through `all`, and storage and notifications are unchanged |
| Containers.ResolvingKey | src/Reservoir/Container.php:376-378 | the two-argument `resolving` appends the callback to the key's listeners; every other key's listeners, the storage and the notifications are unchanged |
| Containers.SetContext | src/Reservoir/Di.php:36-46 | after `context(c, n, v)` the override read back for (c, n) is v; only the context table and the partition order may change |
| Containers.GetOverride | src/Reservoir/Di.php:56-76 | `getOverride` finds a value exactly when `isOverriden` holds, so a row holding null counts |
| Containers.ApplyCommand | src/Reservoir/Container.php:323-326 | a provider's registration changes no listener, no notification and no deferred row |
| Containers.ApplyCommands | src/Reservoir/Container.php:323-326 | a provider's registrations, applied in order, change no listener, no notification and no deferred row, even when one fails part-way |
| Containers.Register | src/Reservoir/Container.php:335-338 | `register` leaves the deferred table as it was |
| ContainerFacts.StoreWatched | src/Reservoir/Container.php:112-118 | storing into a watched partition makes the key present and changes no other key's presence |
| ContainerFacts.StoreSingletonInvisible | src/Reservoir/Container.php:142 | storing a singleton producer leaves `keys()` unchanged |
| ContainerFacts.RegisterMakesVisible | src/Reservoir/Container.php:112-190 | `instance`, `bind` and `alias` on a free key succeed, make that key present, and change no other key's presence |
| ContainerFacts.SecondRegistrationFails | src/Reservoir/Container.php:71-78 | once `instance`, `bind` or `alias` has registered a key, each of `instance`, `bind`, `singleton` and `alias` on it fails with the duplicate-key error |
| ContainerFacts.SingletonInvisible | src/Reservoir/Container.php:130-145 | an unresolved singleton leaves `keys()` and `has` unchanged; a second `singleton` on the key succeeds and overwrites it; `decorator` and `fork` report it missing; `forget` returns false |
| ContainerFacts.DecoratorSpec | src/Reservoir/Container.php:214-233 | `decorator` replaces the entry in the partition `getSourceReference` finds with the transform of the previous value, or with the transform itself when it is not a Closure; the partition's key order, every other entry and partition, the context and deferred tables, the partition order, the listeners and the notifications are unchanged, and `keys()` and the source partition are kept |
| ContainerFacts.KeysSameWhenKeysSame | src/Reservoir/PersistentStorage.php:42-52 | `keys()` depends only on each partition's key list |
| ContainerFacts.DecoratorsCompose | src/Reservoir/Container.php:228-230 | a second decorator receives the first one's result, not the original value |
| ContainerFacts.InstanceThenForkAndDecorate | src/Reservoir/Container.php:245-264 | after `instance`, `fork` hands out the stored value and `decorator` stores the transform of it |
| ContainerFacts.SourceIsInstances | src/Reservoir/PersistentStorage.php:84-93 | after `instance` on a free key, `getSourceReference` finds the instance partition |
| ContainerFacts.InstanceThenForget | src/Reservoir/Container.php:277-280 | `forget` after `instance` on a free key returns true and removes it |
| ContainerFacts.DeferInvisible | src/Reservoir/Container.php:348-351 | `defer` makes no key present |
| ContainerFacts.ContextSpec | src/Reservoir/Di.php:36-62 | after `context(c, n, v)` the override for (c, n) is v, and even a null v counts as an override; every other row and `keys()` are unchanged |
| ContextBinders.When | src/Reservoir/Di.php:22-25 | `when` records the consumer with no parameter identity yet |
| ContextBinders.Needs | src/Reservoir/ContextBinder.php:49-54 | `needs` replaces the parameter identity and keeps the consumer |
| ContextBinders.Give | src/Reservoir/ContextBinder.php:63-70 | `give` writes exactly one override row, under the consumer and the current identity (the empty string before any `needs`), and leaves `keys()` unchanged |
| ContextBinders.TwoNeedsTwoRows | src/Reservoir/ContextBinder.php:49-70 | two `needs`/`give` pairs on one binder leave two distinct override rows |
| Resolution.Emit | src/Reservoir/Container.php:389-394 | `pipe` returns the value unchanged and records one notification carrying it, reaching the listeners `fire` selects for the key |
| Resolution.Make | src/Reservoir/Container.php:422-461 | `make` only appends notifications, never changes listeners, and only removes deferred rows; a success ends with one notification under the post-alias key carrying the value |
| Resolution.MakeKey | src/Reservoir/Container.php:436-460 | from the deferred step on, `make` only appends notifications, keeps the listeners and only removes deferred rows; a success ends with one notification under the post-alias key carrying the value |
| Resolution.FromPartitions | src/Reservoir/Container.php:438-460 | each lookup path ends with exactly one notification under the key, carrying the value returned |
| Resolution.Resolve | src/Reservoir/Container.php:53-60 | a Closure is called with the container, whatever `additional` holds, and leaves the container as it was; anything else is made, which only appends notifications and removes deferred rows |
| Resolution.Promote | src/Reservoir/Container.php:452-453 | a resolved singleton is stored as an instance and its producer is dropped; every other instance and singleton entry, the registry, aliases, context and deferred tables, listeners and notifications are unchanged; only the two partitions may be created |
| Resolution.ResolveDeferred | src/Reservoir/Container.php:301-314 | after a successful pass, no row still deferred that lists the key was in the snapshot the loop walked; the pass only appends notifications, keeps the listeners and partitions, and only removes deferred rows |
| Resolution.Reflect | src/Reservoir/Reflector.php:139-219 | a value that is neither an array, a Closure nor a string is refused; reflecting a name succeeds only for a known, instantiable class; an array callable succeeds only with an object and a method its class declares, or with a Closure and `__invoke`, which PHP reflects as the closure itself; reflection only appends notifications and removes deferred rows |
| Resolution.Argument | src/Reservoir/Reflector.php:101-123 | an explicit argument is taken as given, even null, and leaves the container alone; no argument is passed only for an untyped parameter with no explicit value and no default |
| Resolution.BuildArguments | src/Reservoir/Reflector.php:97-127 | at most one argument per parameter; building arguments only appends notifications and only removes deferred rows |
| Resolution.Makes | src/Reservoir/Container.php:401-410 | a successful `makes` returns exactly one value per key; it only appends notifications, keeps the listeners and only removes deferred rows |
| Resolution.SplitTarget | src/Reservoir/Reflector.php:173-177 | a method is split off exactly when the key holds "::"; without one the class is the whole key; otherwise the class is the text before the first "::" and the method is the text after it up to the next "::" or the end, with no "::" starting inside it; neither part holds "::" |
| Resolution.FindSeparator | src/Reservoir/Reflector.php:173 | the position found is the first occurrence of "::", and none is found exactly when the string holds no "::" |
| ResolutionFacts.ResolveDeferredNoMatch | src/Reservoir/Container.php:303-304 | when no remaining row lists the key, the loop changes nothing |
| ResolutionFacts.MakeString | src/Reservoir/Container.php:432-436 | a string key follows at most one alias hop and then goes to the deferred step |
| ResolutionFacts.MakeInstance | src/Reservoir/Container.php:438-440 | an instance key returns the stored value verbatim and changes only the notification list |
| ResolutionFacts.MakeFactoryClosure | src/Reservoir/Container.php:442-447 | a Closure factory is called with the container on every `make`, whatever `additional` holds |
| ResolutionFacts.MakeFactoryString | src/Reservoir/Container.php:53-60 | a string factory is made with the same `additional`, and the notification goes to the registered key |
| ResolutionFacts.MakeSingletonOnce | src/Reservoir/Container.php:449-456 | the first `make` of a singleton whose producer is a Closure calls it, promotes the result and drops the producer; the next `make` returns the same value |
| ResolutionFacts.MakeSingletonString | src/Reservoir/Container.php:449-456 | the first `make` of a singleton whose producer is a class name is `make` of that name with the same `additional`; on success the value is promoted and the producer dropped, and the next `make` returns the same value unless a provider run meanwhile aliased the key |
| ResolutionFacts.AliasOneHop | src/Reservoir/Container.php:432-434 | an alias whose target is itself an alias is not followed further; `make` reflects the target name as a class |
| ResolutionFacts.SplitPlain | src/Reservoir/Reflector.php:173-177 | a key without "::" names a class and no method |
| ResolutionFacts.SplitMethod | src/Reservoir/Reflector.php:173-174 | "C::m" names class C and method m |
| ResolutionFacts.ReflectClassErrors | src/Reservoir/Reflector.php:179-184 | an unknown class fails with the reflection error; a class that cannot be instantiated fails with the not-instantiable error |
| ResolutionFacts.ReflectMethodDispatch | src/Reservoir/Reflector.php:173-208 | for a constructor and a method whose parameters have no class type, "C::m" constructs C with constructor arguments built under consumer C (none without a constructor), then calls m on that instance with arguments built under the same consumer and from the same explicit arguments |
| ResolutionFacts.BuildPlainArguments | src/Reservoir/Reflector.php:97-127 | for parameters without class types, `buildArguments` never fails and equals the reference list: the explicit argument, else the override (a Closure is called), else the default, else nothing |
| ResolutionFacts.MissingArgumentShifts | src/Reservoir/Reflector.php:118-122 | a parameter that gets no value is skipped, so later arguments move one place left |
| ResolutionFacts.AutowireMakesClass | src/Reservoir/Reflector.php:115-117 | without an explicit argument or an override, a class-typed parameter receives `make` of its class name, with no explicit arguments, and a failure of that `make` is the failure of the argument |
| ResolutionFacts.MakeCallableReflects | src/Reservoir/Container.php:424-428 | a Closure or array key skips aliases, deferred providers and every partition: `make` is reflection plus one notification under the key itself |
| ResolutionFacts.OverrideBeatsAutowiring | src/Reservoir/Reflector.php:106-117 | an override under the parameter's class wins over autowiring; a Closure override is called with the container |
| ResolutionFacts.MakesInOrder | src/Reservoir/Container.php:401-410 | a successful `makes` returns, at position i, the value of `make(keys[i])` with no explicit arguments, run on the state the earlier `make` calls left, and ends in the state the last one left |
| ResolutionFacts.MakesFailsAtFirst | src/Reservoir/Container.php:401-410 | a failing `makes` fails with the first `make` that fails, in the state it left, after every earlier `make` succeeded |
| ResolutionFacts.MakesInstances | src/Reservoir/Container.php:401-410 | `makes` over instance keys returns their stored values in order and leaves storage unchanged |
| ResolutionFacts.MakeClosureFiresWildcard | src/Reservoir/Container.php:424-428 | a Closure key notifies only the wildcard listeners |
| ResolutionFacts.MakeConsumesProviders | src/Reservoir/Container.php:301-314 | after a successful `make`, no deferred provider lists the key any more |
| ResolutionFacts.MakeUnboundClass | src/Reservoir/Container.php:458-460 | a key bound to nothing that names a class without a constructor is built by reflection |
| ResolutionFacts.ResolveDeferredSkip | src/Reservoir/Container.php:303-304 | rows that do not list the key are passed over |
| ResolutionFacts.DeferredProviderRuns | src/Reservoir/Container.php:301-314 | for any deferred table and any registrations, the first provider listing the key has its row deleted, is made, then the object `make` returned is registered; a failure of either, or a made value that is not an object, is the failure of `make`; otherwise the provider is no longer deferred and the loop goes on with the later rows, and when none of them lists the key, the key is looked up in the partitions the registrations left |
| ResolutionFacts.RegisterOneInstance | src/Reservoir/Container.php:323-326 | a provider that registers one instance on a free key stores exactly that instance |
| ResolutionFacts.DeferredProviderRegisters | src/Reservoir/Container.php:301-314 | in the scenario of one deferred row, listing only the key, whose provider class has no constructor and registers one instance of the key (so a plain object standing in for a provider, not a `ServiceProvider` subclass, which inherits a constructor taking the container): the first `make` of the key returns that instance, stores it and leaves no deferred row |
| ResolutionFacts.DeferredStepRegisters | src/Reservoir/Container.php:305-311 | in that same scenario (a constructor-less stand-in, not a `ServiceProvider` subclass), the deferred step removes the row, builds the provider and stores its one instance, leaving the aliases alone |
| ResolutionFacts.ReflectObjectMethod | src/Reservoir/Reflector.php:142-158 | for a method whose parameters have no class type, `[$object, 'm']` builds m's arguments with the object's class as consumer and calls m on that object |
| ResolutionFacts.ReflectClosureInvoke | src/Reservoir/Reflector.php:142-158 | `[$closure, '__invoke']` reflects exactly as the closure itself does, and `make` of it returns what `make` of the closure returns |
| ResolutionFacts.ReflectClassNameMethod | src/Reservoir/Reflector.php:142-158 | `['C', 'm']` with a class name: once `C::m` is found, `get_class` of the string throws a `TypeError` the reflector does not catch, so `make` fails and the container is left as it was |

## Left out

- PHP reflection, object construction and method calls are parameters of the model (`Env`), not computations. So are closure bodies, listener side effects and provider `register` bodies. Listeners are recorded as the ids called; what they do to the container is not modelled.
- Provider registrations are limited to `instance`, `singleton`, `bind`, `alias` and `context`. A provider that calls `defer`, `resolving`, `flush` or `make` from `register` is not modelled.
- Providers are named by class name. `register` with an already-built provider object, and the object a deferred provider's `make` returns, are registered through their class name. The `ServiceProvider` type check of `invokeRegister` is modelled only as far as a value that is not an object fails with `NotAnObject`; an object of some other class is registered as if it were a provider.
- A provider built by `make` receives its `Di` dependency by autowiring, which builds a second container; the model applies the provider's registrations to the container that is resolving, and does not model that second container.
- The `Env` oracles are total: a constructor, method, closure, transform or listener never throws, and `newInstanceArgs` with too few arguments (`ArgumentCountError`) is not modelled. In PHP such an exception leaves `make` after its partial effects, for example a deferred row already deleted; the model has no such failure.
- `ServiceProvider.php`, `ContainerException.php` and `Reservoir.php` are not part of this model. Exceptions are a structured `Error` value, not formatted messages.
- `fork` returns the raw stored value. The clone of objects and arrays, and the callback call, are not modelled, because object identity is not modelled.
- `make` follows the source in having no cycle check. A `fuel` bound limits the depth of nested `make` calls; running out is an `OutOfFuel` error that the source does not have, where PHP would overflow the stack instead.
- PHP array-key coercion (numeric strings becoming integers, `false` becoming 0) and loose `in_array` comparisons are not modelled. Keys are strings. A `make` of a non-string, non-callable key, or through an alias whose target is not a string, is an `IllegalKey` error instead of PHP's coercion.
- ResolutionFacts.ReflectClassNameMethod: `get_class` of a class-name string, in the callable-array branch of `reflect`, follows PHP 8, where it throws a `TypeError` (`NotAnObject`) that the `ReflectionException` handler does not catch. PHP 5 and 7 return `false` with a warning and look the arguments up under that consumer; that behaviour is not modelled, because what a `false` array key matches depends on the PHP version.
- PHP method names are case-insensitive; the model compares them exactly, so `__invoke` on a Closure must be spelled in lower case. The other methods of the built-in `Closure` class (`bind`, `call`, ...) are not built in: `[$closure, 'm']` looks `m` up under class "Closure" in the `Env` class table like any other class.
- The `(array)` cast of objects, which exposes their properties, is not modelled. An object becomes a one-element array.
- Resolution.Make: states only what `make` does to notifications, listeners and deferred rows. The precedence of partitions is stated by the `ResolutionFacts` lemmas for states where every partition already exists. A partition first created during `make` changes only the creation order, which those lemmas exclude.
- ResolutionFacts.ReflectMethodDispatch: stated only when no constructor or method parameter has a class type; a typed parameter is made by autowiring, which may change the container between arguments, and that case is covered parameter by parameter by `ResolutionFacts.AutowireMakesClass` and `ResolutionFacts.OverrideBeatsAutowiring`.
- ResolutionFacts.ReflectObjectMethod: stated only when the method's parameters have no class type, for the same reason.
- Containers.Decorator: the contract states only the error case. Its effect is stated by `ContainerFacts.DecoratorSpec` for valid states.
- Containers.Fork: the contract states only the error case. The value handed out is stated by `ContainerFacts.InstanceThenForkAndDecorate`.
- Resolution.Makes: the contract gives the number of values only. Each value is stated by `ResolutionFacts.MakesInOrder` and `ResolutionFacts.MakesFailsAtFirst`.
- Resolution.BuildArguments: the contract bounds the number of arguments. Their values are stated by `ResolutionFacts.BuildPlainArguments` for parameters without class types. Autowired parameters get values that come out of nested `make` calls.
