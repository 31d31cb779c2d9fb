/**
 * `OwningComponent<TService>` as an object whose getters and teardown update
 * its fields in place, each method proved to take the step OwningModel gives.
 */
module Components {
  import opened Wrappers
  import opened Services
  import OwningModel

  class OwningComponent {
    /** The root container the renderer injects `ScopeFactory` from. */
    const services: ServiceContainer
    /** `ScopeFactory != null`. */
    var factoryBound: bool
    /** `_scope`. */
    var scope: Option<ScopeId>
    /** `_item`. */
    var item: Option<Instance>
    /** Calls of the `Dispose(bool)` hook so far. */
    ghost var hookCalls: nat

    ghost function State(): OwningModel.Owner
      reads this
    {
      OwningModel.Owner(factoryBound, scope, item, hookCalls)
    }

    constructor (services: ServiceContainer)
      ensures this.services == services && State() == OwningModel.Constructed
    {
      this.services := services;
      factoryBound, scope, item := false, None, None;
      hookCalls := 0;
    }

    /** `[Inject]` property injection of `ScopeFactory`. */
    method Inject()
      modifies this`factoryBound
      ensures State() == OwningModel.Inject(old(State()))
    {
      factoryBound := true;
    }

    /** The `ScopedServices` getter. */
    method ScopedServices() returns (r: Result<Provider, Error>)
      modifies this`scope, services
      ensures var st := OwningModel.ScopedServices(old(State()), old(services.world));
        r == st.result && State() == st.owner && services.world == st.world
    {
      if !factoryBound {
        return Failure(NotInitialized);
      }
      if scope.None? {
        var s := services.CreateScope();
        scope := Some(s);
      }
      r := Success(Provider(scope.value));
    }

    /** The `Service` getter. */
    method Service() returns (r: Result<Instance, Error>)
      modifies this`scope, this`item, services
      ensures var st := OwningModel.Service(old(State()), old(services.world));
        r == st.result && State() == st.owner && services.world == st.world
    {
      if item.None? {
        var provider := ScopedServices();
        if provider.Failure? {
          return Failure(provider.error);
        }
        var resolved := services.GetRequiredService(provider.value.scope);
        if resolved.Failure? {
          return Failure(resolved.error);
        }
        item := Some(resolved.value);
      }
      r := Success(item.value);
    }

    /** `IDisposable.Dispose`; a throwing scope disposal is returned as a Failure. */
    method Dispose() returns (r: Result<(), Error>)
      modifies this`scope, this`hookCalls, services
      ensures var st := OwningModel.Dispose(old(State()), old(services.world));
        r == st.result && State() == st.owner && services.world == st.world
    {
      if scope.Some? {
        var ok := services.DisposeScope(scope.value);
        if !ok {
          return Failure(DisposalFailed);
        }
      }
      scope := None;
      DisposeHook(true);
      r := Success(());
    }

    /** The overridable `Dispose(bool disposing)` hook; the base one does nothing. */
    method DisposeHook(disposing: bool)
      modifies this`hookCalls
      ensures hookCalls == old(hookCalls) + 1
    {
      hookCalls := hookCalls + 1;
    }
  }

  /**
   * Two components over one container with a transient service: the first is
   * rendered and torn down, then the second is rendered. Each gets its own
   * scope and its own instance, and tearing the first down disposes only its
   * instance: "Created: 1 - Disposed: 0" after the first is rendered, and
   * "Created: 2 - Disposed: 1" after the second.
   */
  method ReplaceOwningComponent()
    returns (createdFirst: nat, disposedFirst: nat, created: nat, disposed: nat, distinct: bool)
    ensures createdFirst == 1 && disposedFirst == 0
    ensures created == 2 && disposed == 1 && distinct
  {
    var services := new ServiceContainer(true, false);
    var first := new OwningComponent(services);
    first.Inject();
    var a := first.Service();
    createdFirst, disposedFirst := CreatedCount(services.world), DisposedCount(services.world);
    var _ := first.Dispose();
    var second := new OwningComponent(services);
    second.Inject();
    var b := second.Service();
    assert services.world.instances == [0, 1];
    assert services.world.disposed == multiset{0};
    created, disposed := CreatedCount(services.world), DisposedCount(services.world);
    distinct := a.Success? && b.Success? && a.value != b.value;
  }
}
