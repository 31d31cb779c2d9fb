/** What the owning component promises, proved about the state machine of OwningModel. */
module OwningProperties {
  import opened Wrappers
  import opened Services
  import opened OwningModel

  /**
   * Any number of ScopedServices reads of an initialized component create at
   * most one scope, only when none was held, and all return that scope's provider.
   */
  lemma {:induction false} ScopedServicesCreatesOneScope(o: Owner, w: World, n: nat)
    requires o.bound && n >= 1
    ensures var r := ReadScopedServicesTimes(o, w, n);
      var s := if o.scope.Some? then o.scope.value else w.scopes;
      && (forall k :: 0 <= k < n ==> r.results[k] == Success(Provider(s)))
      && r.owner == o.(scope := Some(s))
      && r.world == w.(scopes := if o.scope.Some? then w.scopes else w.scopes + 1)
    decreases n
  {
    var st := ScopedServices(o, w);
    if n > 1 {
      ScopedServicesCreatesOneScope(st.owner, st.world, n - 1);
    }
  }

  /**
   * Any number of Service reads resolve the service at most once (never when it
   * is cached) and all return the identical instance.
   */
  lemma {:induction false} ServiceResolvesOnce(o: Owner, w: World, n: nat)
    requires n >= 1
    requires o.item.Some? || (o.bound && w.registered && Valid(o, w))
    ensures var r := ReadServiceTimes(o, w, n);
      var i := if o.item.Some? then o.item.value else Instance(|w.instances|);
      && (forall k :: 0 <= k < n ==> r.results[k] == Success(i))
      && r.owner.item == Some(i)
      && r.world.resolves == (if o.item.Some? then w.resolves else w.resolves + 1)
      && |r.world.instances| == (if o.item.Some? then |w.instances| else |w.instances| + 1)
      && r.world.scopes == (if o.item.None? && o.scope.None? then w.scopes + 1 else w.scopes)
      && r.world.disposed == w.disposed
    decreases n
  {
    var st := Service(o, w);
    if o.item.None? {
      var sc := ScopedServices(o, w);
      assert sc.result.value.scope !in sc.world.disposed;
    }
    if n > 1 {
      ServiceResolvesOnce(st.owner, st.world, n - 1);
    }
  }

  /**
   * A failed resolution is not cached: the next Service read resolves again,
   * through the scope the failed read created, which is not created again.
   */
  lemma FailedResolutionIsRetried(o: Owner, w: World)
    requires o.bound && o.item.None? && !w.registered && Valid(o, w)
    ensures var first := Service(o, w);
      var second := Service(first.owner, first.world.(registered := true));
      && first.result == Failure(ResolutionFailed)
      && first.owner.item.None? && first.owner.scope.Some?
      && second.result.Success?
      && second.owner.item == Some(second.result.value)
      && second.owner.scope == first.owner.scope
      && second.world.scopes == first.world.scopes
      && second.world.resolves == w.resolves + 2
  {
  }

  /** A second Dispose in a row disposes nothing more; each one calls the hook. */
  lemma SecondDisposeDisposesNothing(o: Owner, w: World)
    requires !w.disposalThrows
    ensures var first := Dispose(o, w);
      var second := Dispose(first.owner, first.world);
      && first.result.Success? && second.result.Success?
      && second.world == first.world
      && second.owner == o.(scope := None, hooks := o.hooks + 2)
  {
  }

  /**
   * After Dispose the cached service is kept, while the next ScopedServices
   * read creates a new scope, distinct from every scope disposed so far.
   */
  lemma DisposeThenReadCreatesFreshScope(o: Owner, w: World)
    requires Valid(o, w) && o.bound && !w.disposalThrows
    ensures var d := Dispose(o, w);
      var st := ScopedServices(d.owner, d.world);
      && st.result.Success?
      && st.result.value.scope !in st.world.disposed
      && (o.scope.Some? ==> st.result.value.scope != o.scope.value)
      && st.world.scopes == w.scopes + 1
      && st.owner.item == o.item
  {
  }

  /**
   * The cached service survives Dispose: a Service read afterwards returns the
   * instance of the disposed scope and holds no scope at all.
   */
  lemma ServiceAfterDisposeIsStale(o: Owner, w: World, s: ScopeId, i: Instance)
    requires o.scope == Some(s) && o.item == Some(i) && !w.disposalThrows
    requires Valid(o, w)
    ensures var d := Dispose(o, w);
      var st := Service(d.owner, d.world);
      && st.result == Success(i)
      && st.owner.item.Some? && st.owner.scope.None?
      && st.world.instances[i.id] in st.world.disposed
  {
  }

  /**
   * Tearing a consistent component down disposes its service: a cached
   * instance was resolved through a scope that is disposed once Dispose returns.
   */
  lemma DisposeDisposesService(o: Owner, w: World)
    requires Valid(o, w) && o.item.Some?
    ensures var d := Dispose(o, w);
      d.result.Success? ==> d.world.instances[o.item.value.id] in d.world.disposed
  {
  }

  /**
   * When disposing the scope throws, the component keeps the scope and does not
   * call the hook, so the next Dispose calls the same scope's Dispose again,
   * whether or not that second call throws.
   */
  lemma ThrowingDisposalIsRepeated(o: Owner, w: World, throwsAgain: bool)
    requires o.scope.Some? && w.disposalThrows
    ensures var first := Dispose(o, w);
      var second := Dispose(first.owner, first.world.(disposalThrows := throwsAgain));
      && first.result == Failure(DisposalFailed) && first.owner == o
      && second.world.disposed[o.scope.value] == w.disposed[o.scope.value] + 2
      && (second.result.Success? <==> !throwsAgain)
      && (throwsAgain ==> second.owner == o)
      && (!throwsAgain ==> second.owner == o.(scope := None, hooks := o.hooks + 1))
  {
  }

  lemma ApplyPreservesValid(op: Op, o: Owner, w: World)
    requires Valid(o, w) && !w.disposalThrows
    ensures Valid(Apply(op, o, w).0, Apply(op, o, w).1) && !Apply(op, o, w).1.disposalThrows
  {
  }

  /** A new component over a new container is consistent with it. */
  lemma ConstructedIsValid(registered: bool)
    ensures Valid(Constructed, Initial(registered, false))
  {
  }

  /**
   * Components sharing a container do not share scopes: a scope another
   * consistent component creates is never the one this component holds, and
   * this component stays consistent with the container.
   */
  lemma ScopeNotShared(a: Owner, b: Owner, w: World)
    requires Valid(a, w) && Valid(b, w) && b.bound && b.scope.None? && a.scope.Some?
    ensures ScopedServices(b, w).result.value.scope != a.scope.value
    ensures Valid(a, ScopedServices(b, w).world)
  {
  }

  /**
   * Disposing one component disposes its own scope only: the scope of another
   * component over the same container stays undisposed and usable.
   */
  lemma DisposeNotShared(a: Owner, b: Owner, w: World)
    requires Valid(a, w) && Valid(b, w) && !w.disposalThrows && a.scope.Some? && b.scope != a.scope
    ensures a.scope.value !in Dispose(b, w).world.disposed
    ensures Valid(a, Dispose(b, w).world)
  {
  }

  /**
   * In any sequence of operations on a consistent component whose scope
   * disposal does not throw, no scope is ever disposed twice, and the
   * component stays consistent.
   */
  lemma {:induction false} EachScopeDisposedAtMostOnce(ops: seq<Op>, o: Owner, w: World)
    requires Valid(o, w) && !w.disposalThrows
    ensures Valid(Run(ops, o, w).0, Run(ops, o, w).1)
    ensures forall s :: Run(ops, o, w).1.disposed[s] <= 1
    decreases |ops|
  {
    if ops != [] {
      ApplyPreservesValid(ops[0], o, w);
      var (o', w') := Apply(ops[0], o, w);
      EachScopeDisposedAtMostOnce(ops[1..], o', w');
    }
  }

  /** Once a service is cached, no sequence of operations, Dispose included, clears it. */
  lemma {:induction false} CachedServiceIsPermanent(ops: seq<Op>, o: Owner, w: World)
    requires o.item.Some?
    ensures Run(ops, o, w).0.item == o.item
    decreases |ops|
  {
    if ops != [] {
      var (o', w') := Apply(ops[0], o, w);
      CachedServiceIsPermanent(ops[1..], o', w');
    }
  }

  /**
   * Between two Disposes a component creates at most one scope: a held scope is
   * kept, and the count of created scopes grows only when a scope is acquired.
   */
  lemma {:induction false} OneScopePerLifetime(ops: seq<Op>, o: Owner, w: World)
    requires forall k :: 0 <= k < |ops| ==> ops[k] != DisposeOwner
    ensures var (o', w') := Run(ops, o, w);
      && (o.scope.Some? ==> o'.scope == o.scope)
      && w'.scopes == (if o.scope.None? && o'.scope.Some? then w.scopes + 1 else w.scopes)
      && w'.disposed == w.disposed
    decreases |ops|
  {
    if ops != [] {
      var (o', w') := Apply(ops[0], o, w);
      OneScopePerLifetime(ops[1..], o', w');
    }
  }
}
