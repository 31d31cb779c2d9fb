/**
 * The dependency-injection collaborators of an owning component, seen from
 * outside: a scope factory that hands out fresh scopes, a provider per scope
 * that resolves the service (transiently: a new instance per successful
 * resolution) and scope disposal, which disposes every instance resolved
 * through the scope and may throw.
 */
module Services {
  import opened Wrappers

  /** Identity of a scope created by the factory: scopes are numbered in creation order. */
  type ScopeId = nat

  /** The `IServiceProvider` of one scope. */
  datatype Provider = Provider(scope: ScopeId)

  /** A resolved service instance; `id` is its position in creation order. */
  datatype Instance = Instance(id: nat)

  /** The exceptions the owning component lets through to its caller. */
  datatype Error =
    | NotInitialized    // "Services cannot be accessed before the component is initialized."
    | ResolutionFailed  // the service type is not registered, or its construction failed
    | ScopeDisposed     // resolution from a scope that has already been disposed
    | DisposalFailed    // disposing the scope threw

  /**
   * Everything the collaborators know.
   * `registered`:     whether the service type can currently be resolved;
   * `disposalThrows`: whether disposing a scope currently throws;
   * `scopes`:         how many scopes the factory has created (ids 0 .. scopes-1);
   * `instances`:      instances[k] is the scope instance k was resolved through;
   * `disposed`:       how many times each scope's Dispose was called;
   * `resolves`:       how many resolutions were attempted.
   */
  datatype World = World(
    registered: bool,
    disposalThrows: bool,
    scopes: nat,
    instances: seq<ScopeId>,
    disposed: multiset<ScopeId>,
    resolves: nat)

  /** A container before anything was created from it. */
  function Initial(registered: bool, disposalThrows: bool): (w: World)
    ensures w.scopes == 0 && w.instances == [] && w.disposed == multiset{} && w.resolves == 0
  {
    World(registered, disposalThrows, 0, [], multiset{}, 0)
  }

  /** `IServiceScopeFactory.CreateScope`: a scope never handed out before. */
  function CreateScopeIn(w: World): (r: (ScopeId, World))
    ensures r.0 >= w.scopes && r.1.scopes > r.0
    ensures r.1 == w.(scopes := r.1.scopes)
  {
    (w.scopes, w.(scopes := w.scopes + 1))
  }

  /** `GetRequiredService` on the provider of scope `s`. */
  function ResolveFrom(w: World, s: ScopeId): (r: (Result<Instance, Error>, World))
    ensures r.1.resolves == w.resolves + 1
    ensures r.0.Success? <==> w.registered && s !in w.disposed
    ensures r.0.Success? ==> r.0.value.id == |w.instances| && r.1.instances == w.instances + [s]
    ensures r.0.Failure? ==> r.1.instances == w.instances
    ensures r.0.Failure? ==> r.0.error == if s in w.disposed then ScopeDisposed else ResolutionFailed
    ensures r.1.scopes == w.scopes && r.1.disposed == w.disposed
    ensures r.1.registered == w.registered && r.1.disposalThrows == w.disposalThrows
  {
    var w' := w.(resolves := w.resolves + 1);
    if s in w.disposed then (Failure(ScopeDisposed), w')
    else if !w.registered then (Failure(ResolutionFailed), w')
    else (Success(Instance(|w.instances|)), w'.(instances := w.instances + [s]))
  }

  /** `IServiceScope.Dispose` on scope `s`: the call is recorded whether or not it throws. */
  function DisposeScopeIn(w: World, s: ScopeId): (r: (bool, World))
    ensures r.0 <==> !w.disposalThrows
    ensures r.1 == w.(disposed := r.1.disposed)
    ensures r.1.disposed[s] == w.disposed[s] + 1
    ensures forall t :: t != s ==> r.1.disposed[t] == w.disposed[t]
  {
    (!w.disposalThrows, w.(disposed := w.disposed + multiset{s}))
  }

  /** How many of `instances` were resolved through a scope that has been disposed. */
  function DisposedAmong(instances: seq<ScopeId>, disposed: multiset<ScopeId>): (n: nat)
    ensures n <= |instances|
    ensures n == 0 <==> forall k :: 0 <= k < |instances| ==> instances[k] !in disposed
  {
    if instances == [] then 0
    else (if instances[0] in disposed then 1 else 0) + DisposedAmong(instances[1..], disposed)
  }

  /** Instances created so far (`MyService.CreatedCount` in the component tests). */
  function CreatedCount(w: World): (n: nat)
    ensures n >= DisposedAmong(w.instances, w.disposed)
  {
    |w.instances|
  }

  /** Instances disposed so far (`MyService.DisposedCount`): those of disposed scopes. */
  function DisposedCount(w: World): (n: nat)
    ensures n <= CreatedCount(w)
    ensures n == 0 <==> forall k :: 0 <= k < |w.instances| ==> w.instances[k] !in w.disposed
  {
    DisposedAmong(w.instances, w.disposed)
  }

  /** The root service provider: the single mutable holder of the collaborators' state. */
  class ServiceContainer {
    var world: World

    constructor (registered: bool, disposalThrows: bool)
      ensures world == Initial(registered, disposalThrows)
    {
      world := Initial(registered, disposalThrows);
    }

    method CreateScope() returns (s: ScopeId)
      modifies this
      ensures (s, world) == CreateScopeIn(old(world))
    {
      s := world.scopes;
      world := world.(scopes := world.scopes + 1);
    }

    method GetRequiredService(s: ScopeId) returns (r: Result<Instance, Error>)
      modifies this
      ensures (r, world) == ResolveFrom(old(world), s)
    {
      world := world.(resolves := world.resolves + 1);
      if s in world.disposed {
        r := Failure(ScopeDisposed);
      } else if !world.registered {
        r := Failure(ResolutionFailed);
      } else {
        r := Success(Instance(|world.instances|));
        world := world.(instances := world.instances + [s]);
      }
    }

    method DisposeScope(s: ScopeId) returns (ok: bool)
      modifies this
      ensures (ok, world) == DisposeScopeIn(old(world), s)
    {
      ok := !world.disposalThrows;
      world := world.(disposed := world.disposed + multiset{s});
    }
  }
}
