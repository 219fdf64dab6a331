/** The runtime world the container works in: PHP values, parameter
    descriptors standing in for reflection, and the oracles that stand in for
    code the container calls but does not own (closure bodies, constructors,
    methods, service providers). */
module Values {
  import opened Wrappers

  /** A PHP value, as far as the container distinguishes values.
      Closures and objects are opaque tokens: `Closure(id)` names a closure,
      `Obj(cls, id)` an object of class `cls`. A two-element `Arr` whose second
      element is a string is the `[target, method]` callable form. */
  datatype Value =
    | Null
    | Bool(b: bool)
    | Int(i: int)
    | Str(s: string)
    | Arr(items: seq<Value>)
    | Closure(id: nat)
    | Obj(cls: string, oid: nat)

  /** PHP `gettype`, used in the container's error messages. */
  function TypeName(v: Value): string
  {
    match v
    case Null => "NULL"
    case Bool(_) => "boolean"
    case Int(_) => "integer"
    case Str(_) => "string"
    case Arr(_) => "array"
    case Closure(_) => "object"
    case Obj(_, _) => "object"
  }

  /** What `singleton` and `bind` accept as a producer: a string or a Closure. */
  predicate IsProducer(v: Value)
  {
    v.Str? || v.Closure?
  }

  /** What `make` hands straight to the reflector: a Closure or an array. */
  predicate IsCallableForm(v: Value)
  {
    v.Arr? || v.Closure?
  }

  /** PHP `(array) $v` for the scalars and arrays `defer` is given. */
  function ToArray(v: Value): (r: seq<Value>)
    ensures v.Arr? ==> r == v.items
    ensures v.Null? ==> r == []
    ensures !v.Arr? && !v.Null? ==> r == [v]
  {
    match v
    case Null => []
    case Arr(xs) => xs
    case _ => [v]
  }

  /** A declared parameter: its name, its class type if it has one, and its
      default value if it declares one. */
  datatype Param = Param(name: string, cls: Option<string>, default: Option<Value>) {

    /** The identity a context override is keyed by: the class name for a
        class-typed parameter, `$name` otherwise. */
    function Abstract(): (a: string)
      ensures cls.Some? ==> a == cls.value
      ensures cls.None? ==> |a| == |name| + 1 && a[0] == '$' && a[1..] == name
    {
      match cls
      case Some(c) => c
      case None => "$" + name
    }
  }

  /** What reflection would report about a class: whether it can be
      instantiated, its constructor's parameters if it has a constructor, and
      the parameters of each of its methods. */
  datatype ClassInfo = ClassInfo(
    instantiable: bool,
    ctor: Option<seq<Param>>,
    methods: map<string, seq<Param>>)

  /** Causes of a PHP `ReflectionException`. */
  datatype ReflectionError =
    | ClassNotFound(name: string)
    | MethodNotFound(cls: string, name: string)
    | NotACallable(given: string)

  /** A registration a service provider's `register(container)` performs. */
  datatype Command =
    | DoInstance(key: string, value: Value)
    | DoSingleton(key: string, producer: Value)
    | DoBind(key: string, producer: Value)
    | DoAlias(alias: string, target: string)
    | DoContext(concrete: string, needs: string, implementation: Value)

  /** The code outside the container, as oracles:
      - `classes`: the classes reflection can see;
      - `construct(cls, args)`: `newInstanceArgs`;
      - `invokeMethod(cls, m, instance, args)`: `ReflectionMethod::invokeArgs`;
      - `closureParams(id)` / `invokeClosure(id, args)`: a closure's parameters and body;
      - `callWithContainer(id)`: `call_user_func($closure, $container)`;
      - `transform(id, old)`: a decorator closure applied to the old value;
      - `provider(cls)`: what the provider class `cls` registers. */
  datatype Env = Env(
    classes: map<string, ClassInfo>,
    construct: (string, seq<Value>) -> Value,
    invokeMethod: (string, string, Value, seq<Value>) -> Value,
    closureParams: nat -> seq<Param>,
    invokeClosure: (nat, seq<Value>) -> Value,
    callWithContainer: nat -> Value,
    transform: (nat, Value) -> Value,
    provider: string -> seq<Command>)
}
