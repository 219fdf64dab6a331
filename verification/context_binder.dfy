/** `ContextBinder`: the fluent `when(c)->needs(a)->give(v)` writer of one
    context-override row. The binder is a value; the container it writes
    into is passed to `Give`. */
module ContextBinders {
  import opened Wrappers
  import opened Values
  import opened Containers
  import opened ContainerFacts

  /** The consumer class and, once `needs` was called, the parameter identity. */
  datatype Binder = Binder(concrete: string, needs: Option<string>)

  /** PHP turns a null array key into the empty string: `give` before any
      `needs` writes the row under "". */
  function NeedsKey(needs: Option<string>): string {
    needs.GetOr("")
  }

  /** `when($concrete)` / the binder's constructor: remembers the consumer,
      nothing else; the container's state is not touched. */
  function When(concrete: string): (b: Binder)
    ensures b.concrete == concrete && b.needs == None
  {
    Binder(concrete, None)
  }

  /** `needs($abstract)`: replaces the recorded parameter identity. */
  function Needs(b: Binder, identity: string): (r: Binder)
    ensures r.concrete == b.concrete && r.needs == Some(identity)
  {
    b.(needs := Some(identity))
  }

  /** `give($implementation)`: exactly `context(concrete, needs, implementation)`. */
  function Give(b: Binder, st: State, impl: Value): (r: State)
    ensures GetOverride(r, b.concrete, NeedsKey(b.needs)) == Some(impl)
    ensures forall c, n | c != b.concrete || n != NeedsKey(b.needs) :: GetOverride(r, c, n) == GetOverride(st, c, n)
    ensures st.Valid() ==> r.Keys() == st.Keys()
  {
    assert st.Valid() ==> SetContext(st, b.concrete, NeedsKey(b.needs), impl).Keys() == st.Keys() by {
      if st.Valid() {
        ContextSpec(st, b.concrete, NeedsKey(b.needs), impl);
      }
    }
    SetContext(st, b.concrete, NeedsKey(b.needs), impl)
  }

  /** Each `give` writes under the binder's current `needs`: two
      `needs`/`give` pairs on one consumer leave two distinct rows. */
  lemma TwoNeedsTwoRows(st: State, c: string, a1: string, v1: Value, a2: string, v2: Value)
    requires a1 != a2
    ensures
      var b := Needs(When(c), a1);
      var st1 := Give(b, st, v1);
      var st2 := Give(Needs(b, a2), st1, v2);
      GetOverride(st2, c, a1) == Some(v1) && GetOverride(st2, c, a2) == Some(v2)
  {
  }
}
