/** Post-fetch filters, looked up per (result type, query type) pair in a registry that
    is populated once at start-up. A pair with no registration resolves to the empty
    filter, which hands its input back unchanged. */
module Filters {

  /** The identity of a .NET type, as a type argument of `Resolve<TResult, TQuery>`. */
  datatype TypeTag = TypeTag(name: string)

  /** A resolved `IFilter<TResult, TQuery>`: a registered component (known by its name),
      or the `EmptyFilter<TResult, TQuery>` built on the spot. */
  datatype Filter = Registered(component: string) | EmptyFilter(result: TypeTag, query: TypeTag)

  /** The dependency container's filter registrations: the name of the component
      registered as `IFilter<TResult, TQuery>` for each pair that has one. */
  type Registry = map<(TypeTag, TypeTag), string>

  /** `Resolve<TResult, TQuery>`: the filter registered for the pair, or a fresh empty
      filter for it. Total: every pair resolves. */
  function Resolve(registry: Registry, result: TypeTag, query: TypeTag): (f: Filter)
    ensures (result, query) in registry ==> f == Registered(registry[(result, query)])
    ensures (result, query) !in registry ==> f == EmptyFilter(result, query)
  {
    if (result, query) in registry then Registered(registry[(result, query)]) else EmptyFilter(result, query)
  }

  /** `IFilter.Filter`: runs a resolved filter over fetched values. An empty filter
      hands the values back unchanged; `run` is the behaviour of the registered
      components, which lie outside this model. */
  function Apply<T, Q>(f: Filter, values: seq<T>, query: Q, run: (string, seq<T>, Q) -> seq<T>): (r: seq<T>)
    ensures f.EmptyFilter? ==> r == values
    ensures f.Registered? ==> r == run(f.component, values, query)
  {
    match f
    case Registered(c) => run(c, values, query)
    case EmptyFilter(_, _) => values
  }

  /** Filtering through a pair with no registration leaves the values as fetched. */
  lemma UnregisteredPairIsIdentity<T, Q>(registry: Registry, result: TypeTag, query: TypeTag,
                                         values: seq<T>, q: Q, run: (string, seq<T>, Q) -> seq<T>)
    requires (result, query) !in registry
    ensures Apply(Resolve(registry, result, query), values, q, run) == values
  {
  }
}
