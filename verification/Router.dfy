/** The pool object, the router's calls on it, and the provider they share. */
module Router {
  import opened Wrappers
  import opened Handles

  class AsyncpgPool {
    var inflight: map<HandleId, Conn>
    var out: set<Conn>

    ghost function View(): Pool
      reads this
    {
      Pool(inflight, out)
    }

    method Acquire(h: HandleId, c: Conn)
      modifies this
      ensures View() == Acquired(old(View()), h, c)
    {
      out := out + {c};
      inflight := inflight[h := c];
    }

    method Release(h: HandleId)
      modifies this
      ensures View() == Released(old(View()), h)
    {
      if h !in inflight { return; }
      var c := inflight[h];
      inflight := inflight - {h};
      out := out - {c};
    }
  }

  datatype RouteError = UnknownSource | NoExecutor | AcquireFailed | KindMismatch | ExecutorError

  // What the executor and the consumer do with the stream: it ends, raises after some batches,
  // or the consumer closes the generator after some batches.
  datatype Course = Exhausts | RaisesAfter(n: nat) | ClosedAfter(n: nat)

  // One use of the connection provider by a call.
  datatype Use = Acquire(handle: HandleId) | Release(handle: HandleId)

  function Upto(batches: seq<int>, n: nat): seq<int> {
    if n < |batches| then batches[..n] else batches
  }

  function Seen(batches: seq<int>, course: Course): seq<int> {
    match course
    case Exhausts => batches
    case RaisesAfter(n) => Upto(batches, n)
    case ClosedAfter(n) => Upto(batches, n)
  }

  /** `Router.execute` by itself, from the lookup of the source to the finalising of its generator.
      However it ends, the handle it acquired is released once, after the last batch, and the pool is as it was. */
  method Execute(pool: AsyncpgPool, sourceKnown: bool, hasExecutor: bool, grant: Option<(HandleId, Conn)>,
                 kindMatches: bool, batches: seq<int>, course: Course)
      returns (yielded: seq<int>, failure: Option<RouteError>, ghost trace: seq<Use>)
    requires grant.Some? ==> grant.value.0 !in pool.inflight && grant.value.1 !in pool.out
    modifies pool
    ensures pool.View() == old(pool.View())
    ensures trace == if sourceKnown && hasExecutor && grant.Some?
                     then [Use.Acquire(grant.value.0), Use.Release(grant.value.0)] else []
    ensures !sourceKnown ==> failure == Some(UnknownSource)
    ensures sourceKnown && !hasExecutor ==> failure == Some(NoExecutor)
    ensures sourceKnown && hasExecutor && grant.None? ==> failure == Some(AcquireFailed)
    ensures sourceKnown && hasExecutor && grant.Some? ==>
      if !kindMatches then failure == Some(KindMismatch) && yielded == []
      else yielded == Seen(batches, course) && (failure == if course.RaisesAfter? then Some(ExecutorError) else None)
    ensures trace == [] ==> yielded == []
  {
    yielded, trace := [], [];
    if !sourceKnown { return yielded, Some(UnknownSource), trace; }
    if !hasExecutor { return yielded, Some(NoExecutor), trace; }
    if grant.None? { return yielded, Some(AcquireFailed), trace; }
    var h := grant.value.0;
    pool.Acquire(h, grant.value.1);
    trace := trace + [Use.Acquire(h)];
    if !kindMatches {
      failure := Some(KindMismatch);
    } else {
      var limit := match course case Exhausts => |batches| case RaisesAfter(n) => n case ClosedAfter(n) => n;
      var i := 0;
      while i < |batches| && i < limit
        invariant 0 <= i <= |batches| && i <= limit
        invariant yielded == batches[..i]
        invariant pool.View() == Acquired(old(pool.View()), h, grant.value.1) && trace == [Use.Acquire(h)]
      {
        yielded := yielded + [batches[i]];
        i := i + 1;
      }
      assert batches[..|batches|] == batches;
      failure := if course.RaisesAfter? then Some(ExecutorError) else None;
    }
    pool.Release(h);
    trace := trace + [Use.Release(h)];
    ReleaseUndoesAcquire(old(pool.View()), h, grant.value.1);
  }

  // The provider's pools and the calls that use them, stretch by stretch: each method is what one
  // call, or the provider, does between two awaits.
  class SharedProvider {
    var pools: map<PoolId, Pool>
    var cached: map<Source, PoolId>
    var calls: map<CallId, Call>
    ghost var log: seq<Action>

    ghost function View(): State
      reads this
    {
      State(pools, cached, calls, log)
    }

    constructor ()
      ensures View() == Empty
    {
      pools, cached, calls, log := map[], map[], map[], [];
    }

    method InstallPool(source: Source, pool: PoolId)
      requires source !in cached && pool !in pools
      modifies this
      ensures View() == Apply(old(View()), Install(source, pool))
    {
      pools := pools[pool := Pool(map[], {})];
      cached := cached[source := pool];
    }

    // `close` clears the dictionary before it closes the pools that were in it.
    method Close()
      modifies this`cached
      ensures View() == Apply(old(View()), CloseAll)
    {
      cached := map[];
    }

    method FindPool(call: CallId, source: Source)
      requires call !in calls && source in cached
      modifies this`calls
      ensures View() == Apply(old(View()), Lookup(call, source))
    {
      calls := calls[call := Found(source, cached[source])];
    }

    method TakeConnection(call: CallId, handle: HandleId, conn: Conn)
      requires Enabled(View(), Checkout(call, handle, conn))
      modifies this
      ensures View() == Apply(old(View()), Checkout(call, handle, conn))
    {
      var c := calls[call];
      var p := pools[c.pool];
      pools := pools[c.pool := Pool(p.inflight[handle := conn], p.out + {conn})];
      calls := calls[call := Holding(c.source, c.pool, handle, conn, 0)];
      log := log + [Took(call, handle)];
    }

    method TakeRaises(call: CallId)
      requires call in calls && calls[call].Found?
      modifies this`calls
      ensures View() == Apply(old(View()), CheckoutFails(call))
    {
      calls := calls[call := Failed];
    }

    method SendBatch(call: CallId)
      requires call in calls && calls[call].Holding?
      modifies this
      ensures View() == Apply(old(View()), Yield(call))
    {
      var c := calls[call];
      calls := calls[call := Holding(c.source, c.pool, c.handle, c.conn, c.seen + 1)];
      log := log + [Batch(call)];
    }

    // `provider.release`: the pool in use for the source pops the handle, if it knows it.
    method ReleaseHandle(handle: HandleId, source: Source)
      modifies this`pools
      ensures View() == Handles.Release(old(View()), handle, source)
    {
      if source !in cached || cached[source] !in pools { return; }
      var p := pools[cached[source]];
      if handle in p.inflight {
        pools := pools[cached[source] := Pool(p.inflight - {handle}, p.out - {p.inflight[handle]})];
      } else {
        assert pools[cached[source] := p] == pools;
      }
    }

    // The `finally` of a call: the end of its stream, an exception, or the closing of its generator.
    method EndCall(call: CallId)
      requires call in calls && calls[call].Holding?
      modifies this
      ensures View() == Apply(old(View()), Finalise(call))
    {
      var c := calls[call];
      var inUse := c.source in cached && cached[c.source] == c.pool;
      ReleaseHandle(c.handle, c.source);
      calls := calls[call := Finalised(c.source, c.pool, c.handle, c.conn, c.seen, inUse)];
      log := log + [Gave(call, c.handle)];
    }
  }
}
