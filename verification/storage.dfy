/** `PersistentStorage`: named partitions created on first access, and the
    key-level queries (`has`, `keys`, `forget`, `getSourceReference`) that
    only look at the partitions named in the watch list. */
module Storage {
  import opened Wrappers
  import opened HashMaps
  import opened Values

  /** The partitions the container uses. */
  datatype Part = Instances | Registry | Singletons | Aliases | Context | Deferred {

    /** The property name the container accesses the partition by. */
    function Name(): string {
      match this
      case Instances => "instances"
      case Registry => "registry"
      case Singletons => "singletons"
      case Aliases => "aliases"
      case Context => "context"
      case Deferred => "deferred"
    }

    /** Partitions whose values are plain container values. */
    predicate HoldsBindings() {
      !Context? && !Deferred?
    }
  }

  /** The watch list exactly as the source spells it: the singleton partition
      appears as "singletones", a name no partition is ever created under. */
  const Watch: seq<string> := ["aliases", "instances", "registry", "singletones"]

  predicate Watched(p: Part) {
    p.Name() in Watch
  }

  /** Only aliases, instances and registry are watched; singletons are not. */
  lemma WatchedParts(p: Part)
    ensures Watched(p) <==> p == Aliases || p == Instances || p == Registry
    ensures Watched(p) ==> p.HoldsBindings()
  {
    match p
    case Singletons =>
      assert "singletons" != "singletones" by {
        assert |"singletons"| != |"singletones"|;
      }
    case _ =>
  }

  predicate DistinctParts(ps: seq<Part>) {
    forall i, j | 0 <= i < j < |ps| :: ps[i] != ps[j]
  }

  datatype Storage = Storage(
    order: seq<Part>,
    instances: HashMap<Value>,
    registry: HashMap<Value>,
    singletons: HashMap<Value>,
    aliases: HashMap<Value>,
    context: HashMap<HashMap<Value>>,
    deferred: HashMap<seq<Value>>)
  {
    /** The partition `p`, when it holds container values. */
    function Table(p: Part): HashMap<Value>
      requires p.HoldsBindings()
    {
      match p
      case Instances => instances
      case Registry => registry
      case Singletons => singletons
      case Aliases => aliases
    }

    function WithTable(p: Part, m: HashMap<Value>): (r: Storage)
      requires p.HoldsBindings()
      ensures r.Table(p) == m
      ensures forall q: Part | q.HoldsBindings() && q != p :: r.Table(q) == Table(q)
      ensures r.order == order && r.context == context && r.deferred == deferred
    {
      match p
      case Instances => this.(instances := m)
      case Registry => this.(registry := m)
      case Singletons => this.(singletons := m)
      case Aliases => this.(aliases := m)
    }

    /** Whether partition `p` is empty. */
    predicate IsEmptyPart(p: Part) {
      match p
      case Context => context.Keys() == []
      case Deferred => deferred.Keys() == []
      case _ => Table(p).Keys() == []
    }

    /** Well-formed storage: partitions listed once, every map with distinct
        keys, and a partition not yet created is empty. */
    predicate Valid() {
      && DistinctParts(order)
      && instances.Valid() && registry.Valid() && singletons.Valid() && aliases.Valid()
      && context.Valid() && deferred.Valid()
      && (forall e | e in context.entries :: e.1.Valid())
      && (forall p: Part | p !in order :: IsEmptyPart(p))
    }

    /** `__get`: the first access to a partition creates it (empty) and
        records its place in creation order. */
    function Touch(p: Part): (r: Storage)
      ensures p in r.order
      ensures forall q | q in order :: q in r.order
      ensures r.(order := order) == this
      ensures p in order ==> r == this
      ensures p !in order ==> r.order == order + [p]
    {
      if p in order then this else this.(order := order + [p])
    }

    /** A partition's contribution to `keys()`. */
    function PartKeys(p: Part): seq<string> {
      if Watched(p) && p.HoldsBindings() then Table(p).Keys() else []
    }

    /** Partition `p` is watched and has key `k`. */
    predicate Holds(p: Part, k: string) {
      Watched(p) && p.HoldsBindings() && Table(p).Has(k)
    }

    function KeysIn(ps: seq<Part>): seq<string> {
      if |ps| == 0 then [] else PartKeys(ps[0]) + KeysIn(ps[1..])
    }

    /** `keys()`: the watched partitions' keys, in partition creation order. */
    function Keys(): (r: seq<string>)
      ensures forall k :: k in r <==> exists p | p in order :: Holds(p, k)
    {
      assert forall k :: k in KeysIn(order) <==> exists p | p in order :: Holds(p, k) by {
        forall k
          ensures k in KeysIn(order) <==> exists p | p in order :: Holds(p, k)
        {
          var _ := FirstWith(order, k);
        }
      }
      KeysIn(order)
    }

    /** `has($key)`. */
    predicate Has(k: string) {
      k in Keys()
    }

    /** The first of `ps` that is watched and has `k`. */
    function FirstWith(ps: seq<Part>, k: string): (r: Option<Part>)
      ensures r.None? <==> forall p | p in ps :: !Holds(p, k)
      ensures r.None? <==> k !in KeysIn(ps)
      ensures r.Some? ==> exists i | 0 <= i < |ps| ::
                ps[i] == r.value && Holds(ps[i], k) && forall j | 0 <= j < i :: !Holds(ps[j], k)
      decreases |ps|
    {
      if |ps| == 0 then None
      else
        var rest := FirstWith(ps[1..], k);
        assert Watched(ps[0]) && ps[0].HoldsBindings() ==>
          (Table(ps[0]).Has(k) <==> k in PartKeys(ps[0])) by {
          if Watched(ps[0]) && ps[0].HoldsBindings() {
            HasIffInKeys(Table(ps[0]), k);
          }
        }
        assert forall p | p in ps :: p == ps[0] || p in ps[1..];
        if Holds(ps[0], k) then Some(ps[0])
        else
          assert rest.Some? ==> exists i | 0 <= i < |ps| ::
            ps[i] == rest.value && Holds(ps[i], k) && forall j | 0 <= j < i :: !Holds(ps[j], k) by {
            if rest.Some? {
              var i' :| 0 <= i' < |ps[1..]| && ps[1..][i'] == rest.value && Holds(ps[1..][i'], k)
                && forall j | 0 <= j < i' :: !Holds(ps[1..][j], k);
              assert ps[i' + 1] == rest.value;
              forall j | 0 <= j < i' + 1
                ensures !Holds(ps[j], k)
              {
                if j > 0 {
                  assert ps[j] == ps[1..][j - 1];
                }
              }
            }
          }
          rest
    }

    /** `getSourceReference($key)`: the first watched partition holding `k`. */
    function SourceRef(k: string): (r: Option<Part>)
      ensures r.Some? <==> Has(k)
      ensures r.Some? ==> r.value in order && Holds(r.value, k)
      ensures r.Some? ==> exists i | 0 <= i < |order| ::
                order[i] == r.value && forall j | 0 <= j < i :: !Holds(order[j], k)
    {
      FirstWith(order, k)
    }

    /** `forget($key)`: delete `k` from the first watched partition holding
        it and report whether anything was deleted. */
    function Forget(k: string): (r: (bool, Storage))
      ensures r.0 <==> Has(k)
      ensures !r.0 ==> r.1 == this
      ensures r.0 ==> !r.1.Table(SourceRef(k).value).Has(k)
      ensures r.1.order == order && r.1.context == context && r.1.deferred == deferred
    {
      match SourceRef(k)
      case None => (false, this)
      case Some(p) =>
        assert p.HoldsBindings() by { WatchedParts(p); }
        (true, WithTable(p, Table(p).Del(k)))
    }
  }

  /** Storage with no partition created yet; also what `flush()` leaves. */
  function Fresh(): (s: Storage)
    ensures s.Valid() && s.Keys() == []
    ensures s.order == [] && forall p: Part :: s.IsEmptyPart(p)
  {
    Storage([], Empty(), Empty(), Empty(), Empty(), Empty(), Empty())
  }

  /** `flush()` discards every partition. */
  function Flush(s: Storage): (r: Storage)
    ensures r.Valid() && r.Keys() == []
    ensures r.order == [] && forall p: Part :: r.IsEmptyPart(p)
    ensures r.context.Keys() == [] && r.deferred.Keys() == []
    ensures forall k :: !r.Has(k)
  {
    Fresh()
  }

  /** `keys()` reads only the partitions' contents, not how they were reached. */
  lemma {:induction false} KeysInTablesOnly(s: Storage, r: Storage, ps: seq<Part>)
    requires forall q: Part | q.HoldsBindings() :: r.Table(q) == s.Table(q)
    ensures r.KeysIn(ps) == s.KeysIn(ps)
    decreases |ps|
  {
    if |ps| > 0 {
      KeysInTablesOnly(s, r, ps[1..]);
    }
  }

  lemma {:induction false} KeysInAppend(s: Storage, a: seq<Part>, b: seq<Part>)
    ensures s.KeysIn(a + b) == s.KeysIn(a) + s.KeysIn(b)
    decreases |a|
  {
    if |a| > 0 {
      assert (a + b)[1..] == a[1..] + b;
      KeysInAppend(s, a[1..], b);
    } else {
      assert a + b == b;
    }
  }

  /** Creating a partition on first access does not change `keys()`, and a
      second access finds the partition already there. */
  lemma TouchKeepsKeys(s: Storage, p: Part)
    requires s.Valid()
    ensures s.Touch(p).Valid()
    ensures s.Touch(p).Keys() == s.Keys()
    ensures s.Touch(p).Touch(p) == s.Touch(p)
  {
    var r := s.Touch(p);
    TouchValid(s, p);
    if p !in s.order {
      KeysInTablesOnly(s, r, s.order + [p]);
      KeysInAppend(s, s.order, [p]);
      assert s.IsEmptyPart(p);
      assert s.KeysIn([p]) == s.PartKeys(p) + s.KeysIn([]);
      assert s.PartKeys(p) == [];
    }
  }

  lemma TouchValid(s: Storage, p: Part)
    requires s.Valid()
    ensures s.Touch(p).Valid()
  {
    var r := s.Touch(p);
    if p !in s.order {
      forall i, j | 0 <= i < j < |r.order|
        ensures r.order[i] != r.order[j]
      {
        if j == |s.order| {
          assert r.order[i] == s.order[i];
        }
      }
      assert r.(order := s.order) == s;
    }
  }

  /** `has(k)` holds exactly when some watched partition has `k`. */
  lemma HasIff(s: Storage, k: string)
    ensures s.Has(k) <==> exists p | p in s.order :: s.Holds(p, k)
    ensures s.Has(k) <==> s.SourceRef(k).Some?
  {
    var r := s.FirstWith(s.order, k);
    assert r.None? <==> forall p | p in s.order :: !s.Holds(p, k);
  }

  /** Writing into a partition that is not watched is invisible to `keys()`. */
  lemma {:induction false} UnwatchedWriteInvisible(s: Storage, p: Part, m: HashMap<Value>, ps: seq<Part>)
    requires p.HoldsBindings() && !Watched(p)
    ensures s.WithTable(p, m).KeysIn(ps) == s.KeysIn(ps)
    decreases |ps|
  {
    if |ps| > 0 {
      UnwatchedWriteInvisible(s, p, m, ps[1..]);
    }
  }

  /** Writing `k` into a created, watched partition makes `k` present and
      leaves every other key's presence as it was. */
  lemma WatchedWrite(s: Storage, p: Part, m: HashMap<Value>, k: string)
    requires p.HoldsBindings() && Watched(p) && p in s.order
    requires m.Has(k)
    requires forall k' | k' != k :: m.Has(k') == s.Table(p).Has(k')
    ensures s.WithTable(p, m).Has(k)
    ensures forall k' | k' != k :: s.WithTable(p, m).Has(k') == s.Has(k')
  {
    var r := s.WithTable(p, m);
    HasIff(r, k);
    assert r.Holds(p, k);
    forall k' | k' != k
      ensures r.Has(k') == s.Has(k')
    {
      HasIff(r, k');
      HasIff(s, k');
      forall q | q in s.order
        ensures r.Holds(q, k') == s.Holds(q, k')
      {
        if q.HoldsBindings() && q != p {
          assert r.Table(q) == s.Table(q);
        }
      }
    }
  }

  /** Storing into a created partition keeps the storage well formed. */
  lemma WithTableValid(s: Storage, p: Part, m: HashMap<Value>)
    requires s.Valid() && p.HoldsBindings() && p in s.order && m.Valid()
    ensures s.WithTable(p, m).Valid()
  {
    var r := s.WithTable(p, m);
    forall q: Part | q !in r.order
      ensures r.IsEmptyPart(q)
    {
      assert s.IsEmptyPart(q);
    }
  }

  /** `forget(k)` answers `has(k)`; when it deletes, only `k` leaves the first
      watched partition holding it, and nothing else changes. */
  lemma ForgetSpec(s: Storage, k: string)
    ensures s.Forget(k).0 <==> s.Has(k)
    ensures !s.Has(k) ==> s.Forget(k).1 == s
    ensures s.Has(k) ==>
      var p := s.SourceRef(k).value;
      var r := s.Forget(k).1;
      && p in s.order && Watched(p) && p.HoldsBindings() && s.Table(p).Has(k)
      && !r.Table(p).Has(k)
      && r.Table(p).Keys() == Filter(s.Table(p).Keys(), k)
      && (forall k' | k' != k :: r.Table(p).Get(k') == s.Table(p).Get(k'))
      && (forall q: Part | q.HoldsBindings() && q != p :: r.Table(q) == s.Table(q))
      && r.order == s.order && r.context == s.context && r.deferred == s.deferred
  {
    HasIff(s, k);
  }

  /** `getSourceReference` depends only on which watched partitions hold the key. */
  lemma {:induction false} FirstWithSameHolds(s: Storage, r: Storage, ps: seq<Part>, k: string)
    requires forall q: Part :: s.Holds(q, k) == r.Holds(q, k)
    ensures s.FirstWith(ps, k) == r.FirstWith(ps, k)
    decreases |ps|
  {
    if |ps| > 0 {
      FirstWithSameHolds(s, r, ps[1..], k);
    }
  }
}
