# OwningComponent: a verified model of scoped-service ownership

`OwningComponent<TService>` is the base class of components that own a
dependency-injection scope. It holds an injected scope factory, an optional
scope (`_scope`) and an optional cached service (`_item`):

- `ScopedServices` throws "Services cannot be accessed before the component is
  initialized" while no scope factory is injected; otherwise it creates the
  scope on first use (`_scope ??= ScopeFactory.CreateScope()`) and returns its
  service provider.
- `Service` resolves `TService` from that provider once and caches it
  (`_item ??= ...`); once cached it does not touch `ScopedServices` at all.
- `IDisposable.Dispose` disposes the scope if there is one, forgets it, and
  calls the overridable `Dispose(bool)` hook.

The project has five files:

- `wrappers.dfy`: `Option` for nullable references and `Result` for a value or a thrown exception.
- `services.dfy`: the dependency-injection collaborators as abstract operations on a `World` value. The scope factory hands out fresh scope ids. Resolution is transient and fails when the service is not registered or the scope is already disposed. Scope disposal is counted per scope and may throw. The `ServiceContainer` class is the mutable root container.
- `owning_model.dfy`: the component as a state machine on values. An `Owner` value holds the three fields and a count of hook calls. `ScopedServices`, `Service` and `Dispose` are steps, `Run` applies a sequence of host operations, and `Valid` is the consistency of an owner with its container.
- `owning_properties.dfy`: the lemmas about the state machine, covering lazy creation, caching, retry, teardown and whole traces.
- `owning_component.dfy`: the class `OwningComponent`. Its methods update `factoryBound`, `scope` and `item` in place and are proved to take exactly the steps of the state machine. It also holds the two-component scenario of the component tests.

Three consequences of the code as written are proved:

- Dispose keeps `_item` (src/Components/Components/src/OwningComponent.cs:56-61). `ServiceAfterDisposeIsStale` shows that a `Service` read after `Dispose` returns the instance of the disposed scope while no scope is held. So holding a service does not imply holding a scope.
- A throwing `_scope.Dispose()` skips `_scope = null` and the hook (OwningComponent.cs:58-60). `ThrowingDisposalIsRepeated` shows that the next `Dispose` calls the same scope's `Dispose` again.
- Nothing rejects a second injection of the scope factory (OwningComponent.cs:24).

## Model

| member | source | states |
|---|---|---|
| `Services.CreateScopeIn` | src/Components/Components/src/OwningComponent.cs:38 | the factory returns a scope id never handed out before and changes nothing else |
| `Services.ResolveFrom` | src/Components/Components/src/OwningComponent.cs:51 | resolution succeeds exactly when the service is registered and the scope is not disposed; a failure is ScopeDisposed for a disposed scope and ResolutionFailed otherwise; a success is a new instance recorded against that scope; every attempt is counted |
| `Services.DisposeScopeIn` | src/Components/Components/src/OwningComponent.cs:58 | disposing a scope records one more disposal of that scope and of no other; it throws exactly when disposal is set to throw |
| `Services.CreatedCount` | src/Components/Components/test/OwningComponentTest.cs:67-71 | the instances created are those resolved so far, never fewer than those disposed |
| `Services.DisposedCount` | src/Components/Components/test/OwningComponentTest.cs:65-76 | the instances disposed are those of disposed scopes, never more than were created, and none exactly when no instance's scope was disposed |
| `Services.ServiceContainer.constructor` | src/Components/Components/test/OwningComponentTest.cs:19-22 | a container starts with no scopes, no instances and no disposals |
| `Services.ServiceContainer.CreateScope` | src/Components/Components/src/OwningComponent.cs:38 | updates the container as `CreateScopeIn` says |
| `Services.ServiceContainer.GetRequiredService` | src/Components/Components/src/OwningComponent.cs:51 | updates the container and returns as `ResolveFrom` says |
| `Services.ServiceContainer.DisposeScope` | src/Components/Components/src/OwningComponent.cs:58 | updates the container and reports a throw as `DisposeScopeIn` says |
| `OwningModel.Inject` | src/Components/Components/src/OwningComponent.cs:24 | injection binds the factory and leaves scope, service and hook count as they were |
| `OwningModel.ScopedServices` | src/Components/Components/src/OwningComponent.cs:29-41 | fails with NotInitialized, changing nothing, exactly when no factory is injected; otherwise returns the provider of the scope the owner then holds; a held scope is kept and its provider returned with nothing changed; creates a scope (with the next fresh id) only when none is held; changes nothing but the scope |
| `OwningModel.Service` | src/Components/Components/src/OwningComponent.cs:46-54 | a cached service is returned with nothing evaluated, even with no factory; a service is returned exactly when one is then cached; a newly resolved service is recorded against the scope the owner then holds; resolution is attempted once when nothing is cached and the factory is injected, never otherwise; with nothing cached and no factory it throws NotInitialized and changes nothing; a failed resolution leaves the scope it created |
| `OwningModel.Dispose` | src/Components/Components/src/OwningComponent.cs:56-66 | throws exactly when a held scope's disposal throws, and then the owner is unchanged; otherwise the scope is forgotten, the hook has run once and the cached service is kept; exactly the held scope is disposed, once |
| `OwningProperties.ScopedServicesCreatesOneScope` | src/Components/Components/src/OwningComponent.cs:33-39 | any number of reads of an initialized component create one scope if none was held and none otherwise, and all return that scope's provider |
| `OwningProperties.ServiceResolvesOnce` | src/Components/Components/src/OwningComponent.cs:50-52 | when resolution succeeds (service cached, or registered with a consistent owner), any number of reads resolve at most once (never when cached), create at most one scope and return the identical instance every time |
| `OwningProperties.FailedResolutionIsRetried` | src/Components/Components/src/OwningComponent.cs:38-51 | a failed resolution is not cached; the next read resolves again through the same scope without creating another, and then caches |
| `OwningProperties.SecondDisposeDisposesNothing` | src/Components/Components/src/OwningComponent.cs:56-61 | a second Dispose in a row disposes nothing more but calls the hook again |
| `OwningProperties.DisposeThenReadCreatesFreshScope` | src/Components/Components/src/OwningComponent.cs:38-61 | after Dispose the cached service is kept and the next ScopedServices read creates a new scope, distinct from the disposed one and from every disposed scope |
| `OwningProperties.ServiceAfterDisposeIsStale` | src/Components/Components/src/OwningComponent.cs:51-59 | for a consistent component, after Dispose, Service returns the cached instance, whose scope is disposed, and holds no scope |
| `OwningProperties.DisposeDisposesService` | src/Components/Components/src/OwningComponent.cs:13-17 | a consistent component whose Dispose succeeds has disposed the scope its cached service was resolved through, so the service is disposed with the component |
| `OwningProperties.ThrowingDisposalIsRepeated` | src/Components/Components/src/OwningComponent.cs:58-60 | when scope disposal throws, the scope is kept and the hook is not called, so the next Dispose calls the same scope's Dispose again; that second call succeeds (forgetting the scope and running the hook) exactly when it does not throw |
| `OwningProperties.ConstructedIsValid` | src/Components/Components/src/OwningComponent.cs:19-24 | a newly constructed component over a new container is consistent with it, so the trace lemmas apply from construction on |
| `OwningProperties.ScopeNotShared` | src/Components/Components/src/OwningComponent.cs:38 | a scope created by one component is never the scope another component over the same container holds, and the other stays consistent |
| `OwningProperties.DisposeNotShared` | src/Components/Components/src/OwningComponent.cs:58-59 | disposing one component never disposes the scope another component over the same container holds, and the other stays consistent |
| `OwningProperties.ApplyPreservesValid` | src/Components/Components/src/OwningComponent.cs:29-61 | each host operation keeps the owner consistent with its container while scope disposal does not throw |
| `OwningProperties.EachScopeDisposedAtMostOnce` | src/Components/Components/src/OwningComponent.cs:56-61 | in every sequence of operations with non-throwing scope disposal, no scope is disposed twice |
| `OwningProperties.CachedServiceIsPermanent` | src/Components/Components/src/OwningComponent.cs:51-61 | once a service is cached, no sequence of operations, Dispose included, clears or replaces it |
| `OwningProperties.OneScopePerLifetime` | src/Components/Components/src/OwningComponent.cs:38 | between two Disposes a held scope is kept and at most one scope is created, only when one is acquired; nothing is disposed |
| `Components.OwningComponent.constructor` | src/Components/Components/src/OwningComponent.cs:19-24 | a new component has no factory, no scope, no service and no hook calls |
| `Components.OwningComponent.Inject` | src/Components/Components/src/OwningComponent.cs:24 | takes the `OwningModel.Inject` step |
| `Components.OwningComponent.ScopedServices` | src/Components/Components/src/OwningComponent.cs:29-41 | returns and updates fields and container exactly as `OwningModel.ScopedServices` |
| `Components.OwningComponent.Service` | src/Components/Components/src/OwningComponent.cs:46-54 | returns and updates fields and container exactly as `OwningModel.Service` |
| `Components.OwningComponent.Dispose` | src/Components/Components/src/OwningComponent.cs:56-61 | returns and updates fields and container exactly as `OwningModel.Dispose` |
| `Components.OwningComponent.DisposeHook` | src/Components/Components/src/OwningComponent.cs:64-66 | the hook call is recorded |
| `Components.ReplaceOwningComponent` | src/Components/Components/test/OwningComponentTest.cs:47-62 | a component rendered then torn down, followed by a second one, gives "Created: 1 - Disposed: 0" after the first render and two distinct instances, "Created: 2 - Disposed: 1", after the second |

## Left out

- Concurrency and re-entrancy: the component has no locking and is driven by a single-threaded renderer, so all calls are sequential.
- Scope creation failing: `IServiceScopeFactory.CreateScope` is modelled as always succeeding.
- Service lifetimes other than transient: each successful resolution creates a new instance. Scoped and singleton registrations are not modelled.
- `TService` is one fixed service type, and `ScopedServices` returns only the identity of the scope's provider. Resolving other services through it is not modelled.
- Cascading disposal: an instance counts as disposed when its scope's `Dispose` has been called. The container's own disposal order and exceptions raised by individual instances are not modelled; any throw is the `disposalThrows` setting of the container.
- Injection by reflection: the injected factory always comes from the container the component was constructed with, and `Inject` sets `factoryBound`. Re-injecting a factory from a different container is not modelled.
- Whether disposing a scope throws is a setting of the container, the same for every call until the container's state is changed; a scope whose first disposal throws and whose later disposals do not is covered only by stating the second call over a changed setting, as `ThrowingDisposalIsRepeated` does.
- Overrides of the `Dispose(bool)` hook are not modelled: `DisposeHook` is the base class's empty hook. An override that throws, or that reads `ScopedServices` after `_scope = null` and so creates a scope nobody disposes, is outside the model.
- The `disposing` argument of the hook is always `true` and is not recorded.
- The rendering machinery (`ComponentBase`, the test renderer, render batches and frames) is not part of this model. The component tests are used only for their create and dispose counts.
- `src/Shared/E2ETesting/BrowserTestBase.cs` (browser automation, asynchronous setup, ambient per-context state) is not part of this model.
