/**
 * The owning component as a state machine on values: the three pieces of
 * state of `OwningComponent<TService>` (whether the scope factory has been
 * injected, the scope, the cached service), the two lazy getters and the
 * teardown, each as a step from (owner, collaborators) to a result and new
 * (owner, collaborators).
 */
module OwningModel {
  import opened Wrappers
  import opened Services

  /**
   * `bound`: the `[Inject] ScopeFactory` property is non-null;
   * `scope`: the field `_scope`; `item`: the field `_item`;
   * `hooks`: how many times the `Dispose(bool)` hook has been called.
   */
  datatype Owner = Owner(bound: bool, scope: Option<ScopeId>, item: Option<Instance>, hooks: nat)

  /** What an operation returns (or throws), and the state after it. */
  datatype Step<T> = Step(result: Result<T, Error>, owner: Owner, world: World)

  /** A freshly constructed component: nothing injected, no scope, no service. */
  const Constructed := Owner(false, None, None, 0)

  /** Property injection of the scope factory; nothing stops it happening twice. */
  function Inject(o: Owner): (r: Owner)
    ensures r.bound
    ensures r.scope == o.scope && r.item == o.item && r.hooks == o.hooks
  {
    o.(bound := true)
  }

  /** The `ScopedServices` getter. */
  function ScopedServices(o: Owner, w: World): (r: Step<Provider>)
    ensures r.result.Failure? <==> !o.bound
    ensures !o.bound ==> r.result == Failure(NotInitialized) && r.owner == o && r.world == w
    ensures r.result.Success? ==> r.owner.scope == Some(r.result.value.scope)
    ensures o.bound && o.scope.Some? ==> r == Step(Success(Provider(o.scope.value)), o, w)
    ensures o.scope.Some? ==> r.world == w
    ensures r.world == w.(scopes := r.world.scopes)
    ensures r.world.scopes == if o.bound && o.scope.None? then w.scopes + 1 else w.scopes
    ensures o.bound && o.scope.None? ==> r.result.value.scope == w.scopes
    ensures r.owner == o.(scope := r.owner.scope)
  {
    if !o.bound then Step(Failure(NotInitialized), o, w)
    else if o.scope.Some? then Step(Success(Provider(o.scope.value)), o, w)
    else
      var (s, w') := CreateScopeIn(w);
      Step(Success(Provider(s)), o.(scope := Some(s)), w')
  }

  /** The `Service` getter: `_item ??= ScopedServices.GetRequiredService<TService>()`. */
  function Service(o: Owner, w: World): (r: Step<Instance>)
    // a cached service is returned without evaluating ScopedServices at all
    ensures o.item.Some? ==> r == Step(Success(o.item.value), o, w)
    // a service is cached exactly when one is returned
    ensures r.result.Success? <==> r.owner.item.Some?
    ensures r.result.Success? ==> r.owner.item == Some(r.result.value)
    // a newly resolved service comes from the scope the owner then holds
    ensures o.item.None? && r.result.Success? ==>
      && r.owner.scope.Some?
      && r.result.value.id < |r.world.instances|
      && r.world.instances[r.result.value.id] == r.owner.scope.value
    // an uninitialized component with nothing cached throws and touches nothing
    ensures o.item.None? && !o.bound ==> r == Step(Failure(NotInitialized), o, w)
    // resolution is attempted at most once, and only when nothing is cached
    ensures r.world.resolves == if o.item.None? && o.bound then w.resolves + 1 else w.resolves
    // on failure the scope created on the way stays
    ensures o.bound && o.item.None? ==> r.owner.scope.Some?
    ensures r.owner.bound == o.bound && r.owner.hooks == o.hooks
    ensures r.world.disposed == w.disposed
  {
    if o.item.Some? then Step(Success(o.item.value), o, w)
    else
      var st := ScopedServices(o, w);
      if st.result.Failure? then Step(Failure(st.result.error), st.owner, st.world)
      else
        var (res, w') := ResolveFrom(st.world, st.result.value.scope);
        if res.Failure? then Step(Failure(res.error), st.owner, w')
        else Step(Success(res.value), st.owner.(item := Some(res.value)), w')
  }

  /** `IDisposable.Dispose`: dispose the scope if any, forget it, call the hook. */
  function Dispose(o: Owner, w: World): (r: Step<()>)
    // only a throwing scope disposal makes Dispose throw, and then nothing of the owner changes
    ensures r.result.Failure? <==> o.scope.Some? && w.disposalThrows
    ensures r.result.Failure? ==> r.result.error == DisposalFailed && r.owner == o
    // on success the scope is gone and the hook ran once; the cached service is kept
    ensures r.result.Success? ==> r.owner == o.(scope := None, hooks := o.hooks + 1)
    // the held scope, and only it, is disposed, once
    ensures r.world == w.(disposed := r.world.disposed)
    ensures r.world.disposed == if o.scope.Some? then w.disposed + multiset{o.scope.value} else w.disposed
  {
    match o.scope
    case None => Step(Success(()), o.(hooks := o.hooks + 1), w)
    case Some(s) =>
      var (ok, w') := DisposeScopeIn(w, s);
      if ok then Step(Success(()), o.(scope := None, hooks := o.hooks + 1), w')
      else Step(Failure(DisposalFailed), o, w')
  }

  /** The operations a host performs on one component. */
  datatype Op = InjectFactory | ReadScopedServices | ReadService | DisposeOwner

  function Apply(op: Op, o: Owner, w: World): (r: (Owner, World))
  {
    match op
    case InjectFactory => (Inject(o), w)
    case ReadScopedServices => var st := ScopedServices(o, w); (st.owner, st.world)
    case ReadService => var st := Service(o, w); (st.owner, st.world)
    case DisposeOwner => var st := Dispose(o, w); (st.owner, st.world)
  }

  /** The state after a sequence of operations, each one's exception ignored by the host. */
  function Run(ops: seq<Op>, o: Owner, w: World): (r: (Owner, World))
    decreases |ops|
  {
    if ops == [] then (o, w)
    else
      var (o', w') := Apply(ops[0], o, w);
      Run(ops[1..], o', w')
  }

  /**
   * The consistency of an owner with its container, as long as scope disposal
   * does not throw: the held scope was created by the container and is not
   * disposed, the cached service was resolved by it through the held scope
   * or through a scope since disposed, every disposed scope was
   * created by it and was disposed exactly once.
   */
  ghost predicate Valid(o: Owner, w: World)
  {
    && (o.scope.Some? ==> o.scope.value < w.scopes && o.scope.value !in w.disposed)
    && (o.item.Some? ==> o.item.value.id < |w.instances|)
    && (o.item.Some? ==>
          || (o.scope.Some? && w.instances[o.item.value.id] == o.scope.value)
          || w.instances[o.item.value.id] in w.disposed)
    && (forall k :: 0 <= k < |w.instances| ==> w.instances[k] < w.scopes)
    && (forall s :: s in w.disposed ==> s < w.scopes && w.disposed[s] == 1)
  }

  /** `n` consecutive reads of one getter: the results in order and the final state. */
  datatype Reads<T> = Reads(results: seq<Result<T, Error>>, owner: Owner, world: World)

  function ReadScopedServicesTimes(o: Owner, w: World, n: nat): (r: Reads<Provider>)
    ensures |r.results| == n
    decreases n
  {
    if n == 0 then Reads([], o, w)
    else
      var st := ScopedServices(o, w);
      var rest := ReadScopedServicesTimes(st.owner, st.world, n - 1);
      Reads([st.result] + rest.results, rest.owner, rest.world)
  }

  function ReadServiceTimes(o: Owner, w: World, n: nat): (r: Reads<Instance>)
    ensures |r.results| == n
    decreases n
  {
    if n == 0 then Reads([], o, w)
    else
      var st := Service(o, w);
      var rest := ReadServiceTimes(st.owner, st.world, n - 1);
      Reads([st.result] + rest.results, rest.owner, rest.world)
  }
}
