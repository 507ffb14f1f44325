/** Dependency environments of dep.rs: a provider per type, inner modules shadowing outer ones. */
module Deps {
  import opened Basics

  type TypeId = int

  datatype DepEnv = DepEnv(singletons: map<TypeId, int>, factories: map<TypeId, int>)

  datatype Provider = Singleton(value: int) | Factory(maker: int)

  /** A type has at most one provider. */
  predicate Sound(e: DepEnv) { e.singletons.Keys !! e.factories.Keys }

  /** What resolution uses: the singleton if there is one, else the factory. */
  function ProviderOf(e: DepEnv, id: TypeId): Option<Provider> {
    if id in e.singletons then Some(Singleton(e.singletons[id]))
    else if id in e.factories then Some(Factory(e.factories[id]))
    else None
  }

  function WithValue(e: DepEnv, id: TypeId, v: int): DepEnv { DepEnv(e.singletons[id := v], e.factories - {id}) }

  function WithFactory(e: DepEnv, id: TypeId, f: int): DepEnv { DepEnv(e.singletons - {id}, e.factories[id := f]) }

  lemma RegistrationIsSound(e: DepEnv, id: TypeId, x: int, t: TypeId)
    requires Sound(e)
    ensures Sound(WithValue(e, id, x)) && Sound(WithFactory(e, id, x))
    ensures ProviderOf(WithValue(e, id, x), t) == if t == id then Some(Singleton(x)) else ProviderOf(e, t)
    ensures ProviderOf(WithFactory(e, id, x), t) == if t == id then Some(Factory(x)) else ProviderOf(e, t)
  {
  }

  /** What merging comes to. */
  function Merged(outer: DepEnv, inner: DepEnv): DepEnv {
    DepEnv((outer.singletons + inner.singletons) - inner.factories.Keys,
           (outer.factories - inner.singletons.Keys) + inner.factories)
  }

  /** Entries of one kind move in, and displace the other kind. */
  method Overlay<K, V>(base: map<K, V>, other: map<K, V>, top: map<K, V>) returns (base': map<K, V>, other': map<K, V>)
    ensures base' == base + top && other' == other - top.Keys
  {
    base', other' := base, other;
    var todo := top.Keys;
    while todo != {}
      invariant todo <= top.Keys
      invariant forall k :: k in base' <==> k in base || (k in top && k !in todo)
      invariant forall k :: k in base' ==> base'[k] == if k in top && k !in todo then top[k] else base[k]
      invariant forall k :: k in other' <==> k in other && (k in todo || k !in top)
      invariant forall k :: k in other' ==> other'[k] == other[k]
      decreases todo
    {
      SetHasMember(todo);
      var k :| k in todo;
      todo := todo - {k};
      base' := base'[k := top[k]];
      other' := other' - {k};
    }
  }

  method MergeFrom(outer: DepEnv, inner: DepEnv) returns (r: DepEnv)
    ensures r == Merged(outer, inner)
  {
    var singletons, factories := Overlay(outer.singletons, outer.factories, inner.singletons);
    factories, singletons := Overlay(factories, singletons, inner.factories);
    r := DepEnv(singletons, factories);
  }

  /** The inner provider wins, of either kind; otherwise the outer one shows through. */
  lemma InnerWins(outer: DepEnv, inner: DepEnv, id: TypeId)
    requires Sound(outer) && Sound(inner)
    ensures Sound(Merged(outer, inner))
    ensures ProviderOf(Merged(outer, inner), id) ==
            if ProviderOf(inner, id).Some? then ProviderOf(inner, id) else ProviderOf(outer, id)
  {
  }
}
