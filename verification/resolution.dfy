/** `Container::make` and the `Reflector` it delegates to. They call each
    other (autowiring makes a parameter's class, a deferred provider is made
    before it registers), so they form one group of mutually recursive
    functions. The source has no cycle check; `fuel` bounds the depth of
    nested `make` calls and running out is the `OutOfFuel` error. */
module Resolution {
  import opened Wrappers
  import opened HashMaps
  import opened Values
  import opened Storage
  import opened Pipes
  import opened Containers

  /** Every entry of `b` is an entry of `a`: a deferred table only loses rows. */
  predicate SubEntries(a: HashMap<seq<Value>>, b: HashMap<seq<Value>>) {
    forall e | e in b.entries :: e in a.entries
  }

  /** What resolution may do to the container beyond the bindings: append
      to the notifications, leave the listener table alone, only remove
      deferred providers, and never drop a partition once created. */
  predicate Extends(a: State, b: State) {
    && a.trace <= b.trace && a.pipe == b.pipe && SubEntries(a.storage.deferred, b.storage.deferred)
    && forall p | p in a.storage.order :: p in b.storage.order
  }

  lemma ExtendsTrans(a: State, b: State, c: State)
    requires Extends(a, b) && Extends(b, c)
    ensures Extends(a, c)
  {
  }

  lemma TouchExtends(st: State, p: Part)
    ensures Extends(st, st.Touch(p))
  {
  }

  /** The key `make(key)` fires its notification with: one alias hop for a
      string key, the key itself for a callable. */
  function FiredKey(st: State, key: Value): Value {
    if key.Str? then st.storage.aliases.Get(key.s).GetOr(key) else key
  }

  function Last<T>(s: seq<T>): T
    requires |s| > 0
  {
    s[|s| - 1]
  }

  /** `pipe($key, $val)`: fire the listeners, then hand the value back. */
  function Emit(o: Outcome<Value>, key: Value): (r: Outcome<Value>)
    ensures Extends(o.state, r.state)
    ensures r.result == o.result
    ensures o.result.Success? ==>
      r.state.trace == o.state.trace + [Fired(key, o.result.value, o.state.pipe.Fire(key))]
  {
    if o.result.Failure? then o
    else Outcome(o.state.(trace := o.state.trace + [Fired(key, o.result.value, o.state.pipe.Fire(key))]), o.result)
  }

  /** The position of the first "::" in `s`, or -1. */
  function FindSeparator(s: string): (r: int)
    ensures -1 <= r < |s|
    ensures r >= 0 ==> r + 1 < |s| && s[r] == ':' && s[r + 1] == ':'
    ensures r >= 0 ==> forall j | 0 <= j < r :: !(s[j] == ':' && s[j + 1] == ':')
    ensures r < 0 ==> forall j | 0 <= j < |s| - 1 :: !(s[j] == ':' && s[j + 1] == ':')
    decreases |s|
  {
    if |s| < 2 then -1
    else if s[0] == ':' && s[1] == ':' then 0
    else
      var r := FindSeparator(s[1..]);
      if r < 0 then -1 else r + 1
  }

  /** `list($class, $method) = explode('::', $key)` when the key holds "::":
      the class is the text before the first "::", the method the text
      between it and the next "::" (or the end). */
  function SplitTarget(key: string): (r: (string, Option<string>))
    ensures r.1.None? <==> FindSeparator(key) < 0
    ensures r.1.None? ==> r.0 == key
    ensures r.1.Some? ==> r.0 + "::" + r.1.value <= key
    ensures r.1.Some? ==> r.0 == key[..FindSeparator(key)]
    ensures r.1.Some? ==>
      var rest := key[FindSeparator(key) + 2..];
      var n := |r.1.value|;
      && r.1.value <= rest
      && (r.1.value == rest || (n + 1 < |rest| && rest[n] == ':' && rest[n + 1] == ':'))
      && forall j | 0 <= j < n && j + 1 < |rest| :: !(rest[j] == ':' && rest[j + 1] == ':')
    ensures FindSeparator(r.0) < 0
    ensures r.1.Some? ==> FindSeparator(r.1.value) < 0
  {
    var i := FindSeparator(key);
    if i < 0 then (key, None)
    else
      var rest := key[i + 2..];
      var j := FindSeparator(rest);
      (key[..i], Some(if j < 0 then rest else rest[..j]))
  }

  /** `make($key, $additional)`. */
  function Make(env: Env, st: State, key: Value, additional: map<string, Value>, fuel: nat): (o: Outcome<Value>)
    ensures Extends(st, o.state)
    ensures o.result.Success? ==>
      |o.state.trace| > 0 &&
      Last(o.state.trace) == Fired(FiredKey(st, key), o.result.value, st.pipe.Fire(FiredKey(st, key)))
    decreases fuel, 0, 0
  {
    if fuel == 0 then Outcome(st, Failure(OutOfFuel))
    else if IsCallableForm(key) then
      Emit(Reflect(env, st, key, additional, fuel - 1), key)
    else if !key.Str? then Outcome(st, Failure(IllegalKey(TypeName(key))))
    else
      var (isAlias, st1) := IsAlias(st, key.s);
      var target := if isAlias then st1.storage.aliases.Get(key.s).value else key;
      if !target.Str? then Outcome(st1, Failure(IllegalKey(TypeName(target))))
      else MakeKey(env, st1, target.s, additional, fuel - 1)
  }

  /** `make` from the deferred-provider step on, for the post-alias key `k`. */
  function MakeKey(env: Env, st: State, k: string, additional: map<string, Value>, fuel: nat): (o: Outcome<Value>)
    ensures Extends(st, o.state)
    ensures o.result.Success? ==>
      |o.state.trace| > 0 && Last(o.state.trace) == Fired(Str(k), o.result.value, st.pipe.Fire(Str(k)))
    decreases fuel, 5, 0
  {
    var s0 := st.Touch(Deferred);
    var o1 := ResolveDeferred(env, s0, k, s0.storage.deferred.entries, 0, fuel);
    if o1.result.Failure? then Outcome(o1.state, Failure(o1.result.error))
    else FromPartitions(env, o1.state, k, additional, fuel)
  }

  /** The partitions in precedence order: an instance verbatim, a factory
      resolved afresh, a singleton resolved and promoted, and otherwise
      reflection on `k` itself. Each path ends in one notification. */
  function FromPartitions(env: Env, st: State, k: string, additional: map<string, Value>, fuel: nat): (o: Outcome<Value>)
    ensures Extends(st, o.state)
    ensures o.result.Success? ==>
      |o.state.trace| > 0 && Last(o.state.trace) == Fired(Str(k), o.result.value, st.pipe.Fire(Str(k)))
    decreases fuel, 4, 0
  {
    var s2 := st.Touch(Instances);
    TouchExtends(st, Instances);
    if s2.storage.instances.Has(k) then
      Emit(Outcome(s2, Success(s2.storage.instances.Get(k).value)), Str(k))
    else
      var s3 := s2.Touch(Registry);
      TouchExtends(s2, Registry);
      ExtendsTrans(st, s2, s3);
      if s3.storage.registry.Has(k) then
        Emit(Resolve(env, s3, s3.storage.registry.Get(k).value, additional, fuel), Str(k))
      else
        var s4 := s3.Touch(Singletons);
        TouchExtends(s3, Singletons);
        ExtendsTrans(st, s3, s4);
        if s4.storage.singletons.Has(k) then
          var o := Resolve(env, s4, s4.storage.singletons.Get(k).value, additional, fuel);
          ExtendsTrans(st, s4, o.state);
          if o.result.Failure? then o
          else
            var promoted := Promote(o.state, k, o.result.value);
            assert Extends(o.state, promoted);
            Emit(Outcome(promoted, o.result), Str(k))
        else
          Emit(Reflect(env, s4, Str(k), additional, fuel), Str(k))
  }

  /** A resolved singleton moves to the instance partition. */
  function Promote(st: State, k: string, v: Value): (r: State)
    ensures r.storage.instances.Get(k) == Some(v)
    ensures !r.storage.singletons.Has(k)
    ensures r.trace == st.trace && r.pipe == st.pipe && r.storage.deferred == st.storage.deferred
    ensures forall k' | k' != k ::
      r.storage.instances.Get(k') == st.storage.instances.Get(k')
      && r.storage.singletons.Get(k') == st.storage.singletons.Get(k')
    ensures r.storage.registry == st.storage.registry && r.storage.aliases == st.storage.aliases
    ensures r.storage.context == st.storage.context
    ensures r.storage.order == st.Touch(Instances).Touch(Singletons).storage.order
  {
    var s1 := st.Touch(Instances);
    var s2 := s1.(storage := s1.storage.(instances := s1.storage.instances.Set(k, v)));
    var s3 := s2.Touch(Singletons);
    s3.(storage := s3.storage.(singletons := s3.storage.singletons.Del(k)))
  }

  /** `resolve($entity, $additional)`: a Closure is called with the
      container and `additional` is ignored; anything else is made. */
  function Resolve(env: Env, st: State, entity: Value, additional: map<string, Value>, fuel: nat): (o: Outcome<Value>)
    ensures Extends(st, o.state)
    ensures entity.Closure? ==> o.state == st && o.result == Success(env.callWithContainer(entity.id))
    decreases fuel, 1, 0
  {
    if entity.Closure? then Outcome(st, Success(env.callWithContainer(entity.id)))
    else Make(env, st, entity, additional, fuel)
  }

  /** `resolveDeferred($key)`, from row `i` of the `snapshot` the loop walks:
      every provider listing `k` is deleted, then made, then registered. */
  function ResolveDeferred(env: Env, st: State, k: string, snapshot: Entries<seq<Value>>, i: nat, fuel: nat)
    : (o: Outcome<()>)
    requires i <= |snapshot|
    ensures Extends(st, o.state)
    ensures o.result.Success? ==>
      forall e | e in o.state.storage.deferred.entries && Str(k) in e.1 :: e !in snapshot[i..]
    decreases fuel, 2, |snapshot| - i
  {
    if i == |snapshot| then Outcome(st, Success(()))
    else
      var (cls, provided) := snapshot[i];
      if Str(k) !in provided then ResolveDeferred(env, st, k, snapshot, i + 1, fuel)
      else
        var s1 := st.Touch(Deferred);
        var s2 := s1.(storage := s1.storage.(deferred := s1.storage.deferred.Del(cls)));
        var om := Make(env, s2, Str(cls), map[], fuel);
        if om.result.Failure? then Outcome(om.state, Failure(om.result.error))
        // `invokeRegister(ServiceProvider $instance)`: what `make` returned is
        // registered, and a value that is not an object is a TypeError
        else if !om.result.value.Obj? then Outcome(om.state, Failure(NotAnObject(TypeName(om.result.value))))
        else
          var reg := Register(env, om.state, om.result.value.cls);
          if reg.result.Failure? then reg
          else
            var o := ResolveDeferred(env, reg.state, k, snapshot, i + 1, fuel);
            assert o.result.Success? ==>
              forall e | e in o.state.storage.deferred.entries && Str(k) in e.1 :: e !in snapshot[i..] by {
              if o.result.Success? {
                forall e | e in o.state.storage.deferred.entries && Str(k) in e.1
                  ensures e !in snapshot[i..]
                {
                  assert e in s2.storage.deferred.entries;
                  EntryKeyPresent(s2.storage.deferred, e);
                  assert e.0 != cls;
                  assert snapshot[i..] == [snapshot[i]] + snapshot[i + 1..];
                }
              }
            }
            o
  }

  /** A row of a map has its key among the map's keys. */
  lemma EntryKeyPresent<V>(m: HashMap<V>, e: (string, V))
    requires e in m.entries
    ensures m.Has(e.0)
  {
    EntryKeyIn(m.entries, e);
    HasIffInKeys(m, e.0);
  }

  lemma {:induction false} EntryKeyIn<V>(es: Entries<V>, e: (string, V))
    requires e in es
    ensures e.0 in KeysOf(es)
    decreases |es|
  {
    if es[0] != e {
      EntryKeyIn(es[1..], e);
    }
  }

  /** The name PHP reflects a Closure's call under. */
  const Invoke: string := "__invoke"

  /** `get_class($object)`: a Closure is an object of class "Closure". */
  function ObjectClass(v: Value): string
    requires v.Obj? || v.Closure?
  {
    if v.Obj? then v.cls else "Closure"
  }

  /** `reflect($key, $additional)`: dispatch on the target's shape. */
  function Reflect(env: Env, st: State, target: Value, additional: map<string, Value>, fuel: nat): (o: Outcome<Value>)
    ensures Extends(st, o.state)
    ensures !(target.Arr? || target.Closure? || target.Str?) ==> o.result == Failure(IllegalKey(TypeName(target)))
    ensures target.Str? && o.result.Success? ==>
      var cls := SplitTarget(target.s).0;
      cls in env.classes && env.classes[cls].instantiable
    ensures target.Arr? && o.result.Success? ==>
      && |target.items| > 1 && target.items[1].Str?
      && (target.items[0].Obj? || target.items[0].Closure?)
      && var cls := ObjectClass(target.items[0]);
         (target.items[0].Closure? && target.items[1].s == Invoke)
         || (cls in env.classes && target.items[1].s in env.classes[cls].methods)
    decreases fuel, 3, 0
  {
    match target
    case Arr(items) =>
      var instance := if |items| > 0 then items[0] else Null;
      var name := if |items| > 1 then items[1] else Null;
      if !name.Str? then Outcome(st, Failure(Reflection(NotACallable(TypeName(name)))))
      else if !(instance.Obj? || instance.Closure? || instance.Str?) then
        Outcome(st, Failure(Reflection(NotACallable(TypeName(instance)))))
      else if instance.Closure? && name.s == Invoke then
        // PHP reflects `Closure::__invoke` with the closure's own signature,
        // and invoking it calls the closure
        var oa := BuildArguments(env, st, "Closure", env.closureParams(instance.id), additional, fuel);
        if oa.result.Failure? then Outcome(oa.state, Failure(oa.result.error))
        else Outcome(oa.state, Success(env.invokeClosure(instance.id, oa.result.value)))
      else
        var cls := if instance.Str? then instance.s else ObjectClass(instance);
        if cls !in env.classes then Outcome(st, Failure(Reflection(ClassNotFound(cls))))
        else if name.s !in env.classes[cls].methods then Outcome(st, Failure(Reflection(MethodNotFound(cls, name.s))))
        // get_class() of a class-name string throws a TypeError, which the
        // catch of ReflectionException does not stop
        else if instance.Str? then Outcome(st, Failure(NotAnObject(TypeName(instance))))
        else
          var oa := BuildArguments(env, st, cls, env.classes[cls].methods[name.s], additional, fuel);
          if oa.result.Failure? then Outcome(oa.state, Failure(oa.result.error))
          else Outcome(oa.state, Success(env.invokeMethod(cls, name.s, instance, oa.result.value)))
    case Closure(id) =>
      var oa := BuildArguments(env, st, "Closure", env.closureParams(id), additional, fuel);
      if oa.result.Failure? then Outcome(oa.state, Failure(oa.result.error))
      else Outcome(oa.state, Success(env.invokeClosure(id, oa.result.value)))
    case Str(key) =>
      var (cls, name) := SplitTarget(key);
      if cls !in env.classes then Outcome(st, Failure(Reflection(ClassNotFound(cls))))
      else if !env.classes[cls].instantiable then Outcome(st, Failure(NotInstantiable(cls)))
      else
        var info := env.classes[cls];
        var oc := if info.ctor.Some? then BuildArguments(env, st, cls, info.ctor.value, additional, fuel)
                  else Outcome(st, Success([]));
        if oc.result.Failure? then Outcome(oc.state, Failure(oc.result.error))
        else
          var instance := env.construct(cls, oc.result.value);
          if name.None? then Outcome(oc.state, Success(instance))
          else if name.value !in info.methods then
            Outcome(oc.state, Failure(Reflection(MethodNotFound(cls, name.value))))
          else
            var om := BuildArguments(env, oc.state, cls, info.methods[name.value], additional, fuel);
            if om.result.Failure? then Outcome(om.state, Failure(om.result.error))
            else Outcome(om.state, Success(env.invokeMethod(cls, name.value, instance, om.result.value)))
    case _ => Outcome(st, Failure(IllegalKey(TypeName(target))))
  }

  /** `buildArguments($context, $parameters, $additional)`: one argument per
      parameter at most, in declaration order. */
  function BuildArguments(env: Env, st: State, context: string, params: seq<Param>,
                          additional: map<string, Value>, fuel: nat): (o: Outcome<seq<Value>>)
    ensures Extends(st, o.state)
    ensures o.result.Success? ==> |o.result.value| <= |params|
    decreases fuel, 2, |params|
  {
    if |params| == 0 then Outcome(st, Success([]))
    else
      var oa := Argument(env, st, context, params[0], additional, fuel);
      if oa.result.Failure? then Outcome(oa.state, Failure(oa.result.error))
      else
        var rest := BuildArguments(env, oa.state, context, params[1..], additional, fuel);
        if rest.result.Failure? then rest
        else
          var here := if oa.result.value.Some? then [oa.result.value.value] else [];
          Outcome(rest.state, Success(here + rest.result.value))
  }

  /** The argument for one parameter, or `None` when none is passed:
      an explicit `additional` entry, else the context override, else
      autowiring by class, else the default. */
  function Argument(env: Env, st: State, context: string, p: Param,
                    additional: map<string, Value>, fuel: nat): (o: Outcome<Option<Value>>)
    ensures Extends(st, o.state)
    ensures p.name in additional ==> o == Outcome(st, Success(Some(additional[p.name])))
    ensures o.result.Success? && o.result.value.None? ==>
      p.name !in additional && p.cls.None? && p.default.None?
    decreases fuel, 1, 0
  {
    if p.name in additional then Outcome(st, Success(Some(additional[p.name])))
    else if p.cls.Some? && p.cls.value !in env.classes then
      // getClass() on a parameter typed with an unknown class
      Outcome(st, Failure(Reflection(ClassNotFound(p.cls.value))))
    else
      var s := st.Touch(Context);
      var identity := p.Abstract();
      if IsOverriden(s, context, identity) then
        var v := GetOverride(s, context, identity).value;
        Outcome(s, Success(Some(if v.Closure? then env.callWithContainer(v.id) else v)))
      else if p.cls.Some? then
        var om := Make(env, s, Str(p.cls.value), map[], fuel);
        if om.result.Failure? then Outcome(om.state, Failure(om.result.error))
        else Outcome(om.state, Success(Some(om.result.value)))
      else Outcome(s, Success(p.default))
  }

  /** `makes(...$keys)`: `make` each key in turn, in order. */
  function Makes(env: Env, st: State, keys: seq<Value>, fuel: nat): (o: Outcome<seq<Value>>)
    ensures Extends(st, o.state)
    ensures o.result.Success? ==> |o.result.value| == |keys|
    decreases |keys|
  {
    if |keys| == 0 then Outcome(st, Success([]))
    else
      var first := Make(env, st, keys[0], map[], fuel);
      if first.result.Failure? then Outcome(first.state, Failure(first.result.error))
      else
        var rest := Makes(env, first.state, keys[1..], fuel);
        if rest.result.Failure? then rest
        else Outcome(rest.state, Success([first.result.value] + rest.result.value))
  }
}
