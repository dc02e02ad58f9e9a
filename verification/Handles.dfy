/** Connections checked out of pools, from acquire to release.

    A pool remembers, under the identity of the handle it gave out, the connection behind it. A call
    of the router looks up the pool of its source, checks a connection out of it, streams, and gives
    its handle back when it or its generator ends. Many calls do so at once, among closes of the
    provider and pools installed after them. */
module Handles {
  type Source = string
  type PoolId = nat
  type HandleId = nat
  type Conn = nat
  type CallId = nat

  // `out` is what the driver's own pool has checked out.
  datatype Pool = Pool(inflight: map<HandleId, Conn>, out: set<Conn>)

  function Acquired(p: Pool, h: HandleId, c: Conn): Pool {
    Pool(p.inflight[h := c], p.out + {c})
  }

  function Released(p: Pool, h: HandleId): Pool {
    if h in p.inflight then Pool(p.inflight - {h}, p.out - {p.inflight[h]}) else p
  }

  // The books agree: one entry per connection checked out.
  ghost predicate Tight(p: Pool) {
    && p.inflight.Values == p.out
    && (forall g, h :: g in p.inflight && h in p.inflight && g != h ==> p.inflight[g] != p.inflight[h])
  }

  /** Acquiring an idle connection keeps the books right exactly when the handle's identity is new
      to the pool: a reused identity forgets the connection it stood for. */
  lemma AcquireTightIffNewIdentity(p: Pool, h: HandleId, c: Conn)
    requires Tight(p) && c !in p.out
    ensures Tight(Acquired(p, h, c)) <==> h !in p.inflight
  {
    var q := Acquired(p, h, c);
    if h in p.inflight {
      assert p.inflight[h] in q.out && p.inflight[h] !in q.inflight.Values;
    } else {
      assert forall g :: g in p.inflight ==> q.inflight[g] == p.inflight[g];
      assert q.inflight[h] == c;
      forall d | d in q.out ensures d in q.inflight.Values {
        if d != c {
          var g :| g in p.inflight && p.inflight[g] == d;
          assert q.inflight[g] == d;
        }
      }
    }
  }

  lemma ReleaseKeepsTight(p: Pool, h: HandleId)
    requires Tight(p)
    ensures Tight(Released(p, h))
  {
    if h in p.inflight {
      var q := Released(p, h);
      forall d | d in q.out ensures d in q.inflight.Values {
        var g :| g in p.inflight && p.inflight[g] == d;
        assert g in q.inflight && q.inflight[g] == d;
      }
    }
  }

  // Acquire then release is no change, and a second release is no change either.
  lemma ReleaseUndoesAcquire(p: Pool, h: HandleId, c: Conn)
    requires h !in p.inflight && c !in p.out
    ensures Released(Acquired(p, h, c), h) == p
    ensures Released(Released(p, h), h) == Released(p, h)
  {
    assert Acquired(p, h, c).inflight - {h} == p.inflight;
  }

  // ---------------------------------------------------------------- many calls, several pools

  // Where a call stands. `inUse` records whether its pool was still the one in use for its source
  // when it gave its handle back, and `seen` how many batches went out.
  datatype Call =
    | Found(source: Source, pool: PoolId)
    | Holding(source: Source, pool: PoolId, handle: HandleId, conn: Conn, seen: nat)
    | Finalised(source: Source, pool: PoolId, handle: HandleId, conn: Conn, seen: nat, inUse: bool)
    | Failed

  datatype Action = Took(call: CallId, handle: HandleId) | Batch(call: CallId) | Gave(call: CallId, handle: HandleId)

  datatype State = State(
    pools: map<PoolId, Pool>, cached: map<Source, PoolId>, calls: map<CallId, Call>, log: seq<Action>)

  datatype Event =
    | Install(source: Source, pool: PoolId)
    | CloseAll
    | Lookup(call: CallId, source: Source)
    | Checkout(call: CallId, handle: HandleId, conn: Conn)
    | CheckoutFails(call: CallId)
    | Yield(call: CallId)
    | Finalise(call: CallId)
    | ReleaseAgain(handle: HandleId, source: Source)

  const Empty := State(map[], map[], map[], [])

  predicate Held(s: State, h: HandleId) {
    exists c :: c in s.calls && s.calls[c].Holding? && s.calls[c].handle == h
  }

  predicate InUse(s: State, source: Source, pool: PoolId) {
    source in s.cached && s.cached[source] == pool
  }

  // The identity of a handle is not that of another live one, and the driver hands out idle
  // connections. A checkout may come after the pool looked up has been closed.
  predicate Enabled(s: State, e: Event) {
    match e
    case Install(source, pool) => source !in s.cached && pool !in s.pools
    case CloseAll => true
    case Lookup(call, source) => call !in s.calls && source in s.cached
    case Checkout(call, handle, conn) =>
      call in s.calls && s.calls[call].Found? && !Held(s, handle) &&
      s.calls[call].pool in s.pools && conn !in s.pools[s.calls[call].pool].out
    case CheckoutFails(call) => call in s.calls && s.calls[call].Found?
    case Yield(call) => call in s.calls && s.calls[call].Holding?
    case Finalise(call) => call in s.calls && s.calls[call].Holding?
    case ReleaseAgain(handle, _) => !Held(s, handle)
  }

  // `provider.release`: looks the pool up by source, so a pool closed meanwhile is not found.
  function Release(s: State, h: HandleId, source: Source): State {
    if source in s.cached && s.cached[source] in s.pools
    then s.(pools := s.pools[s.cached[source] := Released(s.pools[s.cached[source]], h)])
    else s
  }

  function Ended(c: Call, inUse: bool): Call
    requires c.Holding?
  {
    Finalised(c.source, c.pool, c.handle, c.conn, c.seen, inUse)
  }

  function Apply(s: State, e: Event): State {
    if !Enabled(s, e) then s else
    match e
    case Install(source, pool) =>
      s.(pools := s.pools[pool := Pool(map[], {})], cached := s.cached[source := pool])
    case CloseAll => s.(cached := map[])
    case Lookup(call, source) => s.(calls := s.calls[call := Found(source, s.cached[source])])
    case Checkout(call, handle, conn) =>
      var c := s.calls[call];
      s.(pools := s.pools[c.pool := Acquired(s.pools[c.pool], handle, conn)],
         calls := s.calls[call := Holding(c.source, c.pool, handle, conn, 0)],
         log := s.log + [Took(call, handle)])
    case CheckoutFails(call) => s.(calls := s.calls[call := Failed])
    case Yield(call) =>
      var c := s.calls[call];
      s.(calls := s.calls[call := Holding(c.source, c.pool, c.handle, c.conn, c.seen + 1)], log := s.log + [Batch(call)])
    case Finalise(call) =>
      var c := s.calls[call];
      Release(s, c.handle, c.source).(
        calls := s.calls[call := Ended(c, InUse(s, c.source, c.pool))],
        log := s.log + [Gave(call, c.handle)])
    case ReleaseAgain(handle, source) => Release(s, handle, source)
  }

  function Exec(s: State, events: seq<Event>): State {
    if events == [] then s else Apply(Exec(s, events[..|events| - 1]), events[|events| - 1])
  }

  // ---------------------------------------------------------------- the books of a pool

  // What a call has of a pool: a connection, under a handle that is still live or not.
  datatype Claim = Claim(handle: HandleId, conn: Conn, live: bool)

  // The call has a connection of the pool out: it holds it, or gave its handle back out of use.
  predicate Keeps(c: Call, pool: PoolId) {
    (c.Holding? || (c.Finalised? && !c.inUse)) && c.pool == pool
  }

  function Claims(s: State, pool: PoolId): map<CallId, Claim> {
    map c | c in s.calls && Keeps(s.calls[c], pool) :: Claim(s.calls[c].handle, s.calls[c].conn, s.calls[c].Holding?)
  }

  // What is checked out of the pool is what the claims say, each a connection of its own, and that
  // of a live handle is the one remembered under it.
  ghost predicate Books(p: Pool, m: map<CallId, Claim>) {
    && (forall c :: c in m ==> m[c].conn in p.out)
    && (forall x :: x in p.out ==> exists c :: c in m && m[c].conn == x)
    && (forall c, d :: c in m && d in m && c != d ==> m[c].conn != m[d].conn)
    && (forall c :: c in m && m[c].live ==> m[c].handle in p.inflight && p.inflight[m[c].handle] == m[c].conn)
  }

  ghost predicate LiveApart(m: map<CallId, Claim>) {
    forall c, d :: c in m && d in m && c != d && m[c].live && m[d].live ==> m[c].handle != m[d].handle
  }

  // A pool in use remembers live handles only.
  ghost predicate LiveOnly(p: Pool, m: map<CallId, Claim>) {
    && (forall c :: c in m ==> m[c].live)
    && (forall h :: h in p.inflight ==> exists c :: c in m && m[c].handle == h)
  }

  lemma CheckoutKeepsBooks(p: Pool, m: map<CallId, Claim>, call: CallId, h: HandleId, x: Conn)
    requires Books(p, m) && call !in m && x !in p.out && forall c :: c in m && m[c].live ==> m[c].handle != h
    ensures Books(Acquired(p, h, x), m[call := Claim(h, x, true)])
    ensures LiveOnly(p, m) ==> LiveOnly(Acquired(p, h, x), m[call := Claim(h, x, true)])
  {
    var q, n := Acquired(p, h, x), m[call := Claim(h, x, true)];
    assert forall c :: c in m ==> n[c] == m[c];
    assert n[call].conn == x && n[call].handle == h;
  }

  lemma ReturnKeepsBooks(p: Pool, m: map<CallId, Claim>, call: CallId)
    requires Books(p, m) && LiveApart(m) && call in m && m[call].live
    ensures Books(Released(p, m[call].handle), m - {call})
  {
    var q, n := Released(p, m[call].handle), m - {call};
    forall y | y in q.out ensures exists c :: c in n && n[c].conn == y {
      var c :| c in m && m[c].conn == y;
      assert c in n;
    }
  }

  lemma ReturnKeepsLiveOnly(p: Pool, m: map<CallId, Claim>, call: CallId)
    requires Books(p, m) && call in m && m[call].live && LiveOnly(p, m)
    ensures LiveOnly(Released(p, m[call].handle), m - {call})
  {
    var q, n := Released(p, m[call].handle), m - {call};
    forall h | h in q.inflight ensures exists c :: c in n && n[c].handle == h {
      var c :| c in m && m[c].handle == h;
      assert c in n;
    }
  }

  // A handle given back out of use: the connection stays out.
  lemma StrandingKeepsBooks(p: Pool, m: map<CallId, Claim>, call: CallId)
    requires Books(p, m) && call in m
    ensures Books(p, m[call := m[call].(live := false)])
  {
    var n := m[call := m[call].(live := false)];
    assert forall c :: c in m ==> n[c].conn == m[c].conn;
  }

  // ---------------------------------------------------------------- all pools, all runs

  ghost predicate OneCallEach(s: State) {
    forall c, d :: c in s.calls && d in s.calls && c != d && s.calls[c].Holding? && s.calls[d].Holding? ==>
      s.calls[c].handle != s.calls[d].handle
  }

  ghost predicate CachedApart(s: State) {
    && (forall src :: src in s.cached ==> s.cached[src] in s.pools)
    && (forall src, tgt :: src in s.cached && tgt in s.cached && src != tgt ==> s.cached[src] != s.cached[tgt])
  }

  // Calls know pools that exist, and a pool in use is known to calls of its source only.
  ghost predicate KnownPools(s: State) {
    && (forall c :: c in s.calls && !s.calls[c].Failed? ==> s.calls[c].pool in s.pools)
    && (forall c, src :: c in s.calls && !s.calls[c].Failed? && src in s.cached && s.cached[src] == s.calls[c].pool ==>
          s.calls[c].source == src)
  }

  ghost predicate Ordered(s: State) {
    OneCallEach(s) && CachedApart(s) && KnownPools(s)
  }

  ghost predicate BooksRight(s: State) {
    forall id :: id in s.pools ==> Books(s.pools[id], Claims(s, id))
  }

  ghost predicate UsedRight(s: State) {
    forall src :: src in s.cached && s.cached[src] in s.pools ==> LiveOnly(s.pools[s.cached[src]], Claims(s, s.cached[src]))
  }

  ghost predicate Good(s: State) {
    Ordered(s) && BooksRight(s) && UsedRight(s)
  }

  lemma ClaimsApart(s: State, id: PoolId)
    requires Ordered(s)
    ensures LiveApart(Claims(s, id))
  {
  }

  /** A release that nobody is owed - a second one, or one of a handle nobody holds - changes nothing. */
  lemma IdleReleaseIsNothing(s: State, h: HandleId, source: Source)
    requires Good(s) && !Held(s, h)
    ensures Release(s, h, source) == s
  {
    if source in s.cached {
      var id := s.cached[source];
      assert LiveOnly(s.pools[id], Claims(s, id));
      assert h !in s.pools[id].inflight;
    }
  }

  /** Giving back a handle of a pool that is not in use any more leaves every pool as it is. */
  lemma StaleReleaseIsNothing(s: State, call: CallId)
    requires Good(s) && call in s.calls && s.calls[call].Holding?
    requires !InUse(s, s.calls[call].source, s.calls[call].pool)
    ensures Release(s, s.calls[call].handle, s.calls[call].source) == s
  {
    var c := s.calls[call];
    if c.source in s.cached {
      var id := s.cached[c.source];
      assert LiveOnly(s.pools[id], Claims(s, id));
      OtherHandles(s, call, id);
      hide Claims, Good;
      assert c.handle !in s.pools[id].inflight;
    }
  }

  // The handle of a call is not that of a live claim on another pool.
  lemma OtherHandles(s: State, call: CallId, id: PoolId)
    requires OneCallEach(s) && call in s.calls && s.calls[call].Holding? && s.calls[call].pool != id
    ensures var m := Claims(s, id); forall d :: d in m && m[d].live ==> m[d].handle != s.calls[call].handle
  {
  }

  lemma CheckoutClaims(s: State, call: CallId, handle: HandleId, conn: Conn, id: PoolId)
    requires Enabled(s, Checkout(call, handle, conn))
    ensures var t := Apply(s, Checkout(call, handle, conn));
      Claims(t, id) == if id == s.calls[call].pool then Claims(s, id)[call := Claim(handle, conn, true)] else Claims(s, id)
  {
  }

  lemma FinaliseClaims(s: State, call: CallId, id: PoolId)
    requires Enabled(s, Finalise(call))
    ensures var t, c, m := Apply(s, Finalise(call)), s.calls[call], Claims(s, id);
      && (id == c.pool ==> call in m && m[call] == Claim(c.handle, c.conn, true))
      && Claims(t, id) ==
        if id != c.pool then m
        else if InUse(s, c.source, c.pool) then m - {call}
        else m[call := Claim(c.handle, c.conn, false)]
  {
  }

  lemma OtherClaims(s: State, e: Event, id: PoolId)
    requires !e.Checkout? && !e.Finalise?
    ensures Claims(Apply(s, e), id) == Claims(s, id)
  {
  }

  // Who knows which pool, whatever the pools hold.
  lemma StepKeepsOrder(s: State, e: Event)
    requires Ordered(s)
    ensures Ordered(Apply(s, e))
  {
    hide Acquired, Released;
    if e.Checkout? && Enabled(s, e) {
      assert forall c :: c in s.calls && s.calls[c].Holding? ==> s.calls[c].handle != e.handle;
    }
  }

  lemma InstallKeepsGood(s: State, source: Source, pool: PoolId)
    requires Good(s) && Enabled(s, Install(source, pool))
    ensures Good(Apply(s, Install(source, pool)))
  {
    hide Books, LiveOnly;
    var t := Apply(s, Install(source, pool));
    StepKeepsOrder(s, Install(source, pool));
    forall id: PoolId ensures Claims(t, id) == Claims(s, id) { OtherClaims(s, Install(source, pool), id); }
    assert Claims(s, pool) == map[];
    assert Books(Pool(map[], {}), map[]) && LiveOnly(Pool(map[], {}), map[]) by { NewPool(); }
    assert BooksRight(t);
    assert UsedRight(t);
  }

  lemma NewPool()
    ensures Books(Pool(map[], {}), map[]) && LiveOnly(Pool(map[], {}), map[])
  {
  }

  // Events that change neither pools nor claims.
  lemma QuietKeepsGood(s: State, e: Event)
    requires Good(s) && Enabled(s, e) && (e.CloseAll? || e.Lookup? || e.CheckoutFails? || e.Yield?)
    ensures Good(Apply(s, e))
  {
    hide Books, LiveOnly, Claims, Ordered;
    var t := Apply(s, e);
    StepKeepsOrder(s, e);
    forall id: PoolId ensures Claims(t, id) == Claims(s, id) { OtherClaims(s, e, id); }
    assert BooksRight(t);
    assert UsedRight(t);
  }

  lemma CheckoutIsFresh(s: State, call: CallId, handle: HandleId, conn: Conn)
    requires Enabled(s, Checkout(call, handle, conn))
    ensures var m := Claims(s, s.calls[call].pool);
      call !in m && forall c :: c in m && m[c].live ==> m[c].handle != handle
  {
    assert forall c :: c in s.calls && s.calls[c].Holding? ==> s.calls[c].handle != handle;
  }

  // One pool, or the claims on it, change; the other pools and their claims do not.
  lemma OnePoolChanges(s: State, t: State, pool: PoolId, q: Pool)
    requires BooksRight(s) && UsedRight(s) && pool in s.pools && t.pools == s.pools[pool := q] && t.cached == s.cached
    requires forall id :: id != pool ==> Claims(t, id) == Claims(s, id)
    requires Books(q, Claims(t, pool))
    requires (exists src :: InUse(s, src, pool)) && LiveOnly(s.pools[pool], Claims(s, pool)) ==> LiveOnly(q, Claims(t, pool))
    ensures BooksRight(t) && UsedRight(t)
  {
    hide Books, LiveOnly, Claims;
    forall src | src in t.cached && t.cached[src] in t.pools ensures LiveOnly(t.pools[t.cached[src]], Claims(t, t.cached[src])) {
      if t.cached[src] == pool { assert InUse(s, src, pool); }
    }
  }

  lemma CheckoutKeepsGood(s: State, call: CallId, handle: HandleId, conn: Conn)
    requires Good(s) && Enabled(s, Checkout(call, handle, conn))
    ensures Good(Apply(s, Checkout(call, handle, conn)))
  {
    var t, pool := Apply(s, Checkout(call, handle, conn)), s.calls[call].pool;
    var q := Acquired(s.pools[pool], handle, conn);
    assert t.pools == s.pools[pool := q] && t.cached == s.cached;
    CheckoutIsFresh(s, call, handle, conn);
    assert Books(s.pools[pool], Claims(s, pool));
    hide Books, LiveOnly, Acquired, Claims, Ordered, BooksRight, UsedRight, Held;
    StepKeepsOrder(s, Checkout(call, handle, conn));
    forall id: PoolId
      ensures Claims(t, id) == if id == pool then Claims(s, id)[call := Claim(handle, conn, true)] else Claims(s, id)
    {
      CheckoutClaims(s, call, handle, conn, id);
    }
    CheckoutKeepsBooks(s.pools[pool], Claims(s, pool), call, handle, conn);
    hide Apply;
    OnePoolChanges(s, t, pool, q);
  }

  lemma FinaliseKeepsGood(s: State, call: CallId)
    requires Good(s) && Enabled(s, Finalise(call))
    ensures Good(Apply(s, Finalise(call)))
  {
    hide Ordered, BooksRight, UsedRight;
    StepKeepsOrder(s, Finalise(call));
    hide Apply;
    if InUse(s, s.calls[call].source, s.calls[call].pool) { ReturnKeepsRight(s, call); } else { StrandingKeepsRight(s, call); }
  }

  lemma ReturnKeepsRight(s: State, call: CallId)
    requires Good(s) && Enabled(s, Finalise(call)) && InUse(s, s.calls[call].source, s.calls[call].pool)
    ensures BooksRight(Apply(s, Finalise(call))) && UsedRight(Apply(s, Finalise(call)))
  {
    var t, c := Apply(s, Finalise(call)), s.calls[call];
    var m, p := Claims(s, c.pool), s.pools[c.pool];
    assert Books(p, m) && t.cached == s.cached && t.pools == s.pools[c.pool := Released(p, c.handle)];
    ClaimsApart(s, c.pool);
    hide Books, LiveOnly, Released, Claims, BooksRight, UsedRight, Apply, Ordered;
    FinaliseClaims(s, call, c.pool);
    forall id: PoolId | id != c.pool ensures Claims(t, id) == Claims(s, id) { FinaliseClaims(s, call, id); }
    ReturnKeepsBooks(p, m, call);
    if LiveOnly(p, m) { ReturnKeepsLiveOnly(p, m, call); }
    OnePoolChanges(s, t, c.pool, Released(p, c.handle));
  }

  lemma StrandingKeepsRight(s: State, call: CallId)
    requires Good(s) && Enabled(s, Finalise(call)) && !InUse(s, s.calls[call].source, s.calls[call].pool)
    ensures BooksRight(Apply(s, Finalise(call))) && UsedRight(Apply(s, Finalise(call)))
  {
    StaleReleaseIsNothing(s, call);
    var t, c := Apply(s, Finalise(call)), s.calls[call];
    var m, p := Claims(s, c.pool), s.pools[c.pool];
    assert Books(p, m) && t.cached == s.cached && t.pools == s.pools[c.pool := p];
    hide Books, LiveOnly, Released, Claims, BooksRight, UsedRight, Apply, Ordered;
    FinaliseClaims(s, call, c.pool);
    forall id: PoolId | id != c.pool ensures Claims(t, id) == Claims(s, id) { FinaliseClaims(s, call, id); }
    StrandingKeepsBooks(p, m, call);
    NotInUse(s, c.source, c.pool, call);
    OnePoolChanges(s, t, c.pool, p);
  }

  // A pool that is not in use for the source of its calls is in use for none.
  lemma NotInUse(s: State, source: Source, pool: PoolId, call: CallId)
    requires Ordered(s) && call in s.calls && s.calls[call].Holding? && s.calls[call].source == source && s.calls[call].pool == pool
    requires !InUse(s, source, pool)
    ensures !exists src :: InUse(s, src, pool)
  {
  }

  lemma StepKeepsGood(s: State, e: Event)
    requires Good(s)
    ensures Good(Apply(s, e))
  {
    if Enabled(s, e) {
      hide Good, Release;
      match e
      case Install(source, pool) => InstallKeepsGood(s, source, pool);
      case Checkout(call, handle, conn) => CheckoutKeepsGood(s, call, handle, conn);
      case Finalise(call) => FinaliseKeepsGood(s, call);
      case ReleaseAgain(h, source) => IdleReleaseIsNothing(s, h, source);
      case _ => QuietKeepsGood(s, e);
    }
  }

  lemma {:induction false} AlwaysGood(events: seq<Event>)
    ensures Good(Exec(Empty, events))
    decreases |events|
  {
    if |events| > 0 {
      var before := events[..|events| - 1];
      AlwaysGood(before);
      StepKeepsGood(Exec(Empty, before), events[|events| - 1]);
    }
  }

  /** Over any interleaving of calls, second releases, closes and installs, and for every pool ever
      installed: the connections checked out of it are those of the calls that hold one and of the
      calls that gave their handle back while the pool was not in use; no two calls have the same
      connection, and each one held is remembered under its live handle. A pool in use remembers
      nothing else, and has no stranded call. */
  lemma HandlesConserved(events: seq<Event>, id: PoolId)
    requires id in Exec(Empty, events).pools
    ensures var s := Exec(Empty, events);
      var p, m := s.pools[id], Claims(s, id);
      && p.out == (set c | c in m :: m[c].conn)
      && (forall c, d :: c in m && d in m && c != d ==> m[c].conn != m[d].conn)
      && (forall c :: c in m && m[c].live ==> m[c].handle in p.inflight && p.inflight[m[c].handle] == m[c].conn)
      && (forall src :: InUse(s, src, id) ==>
            && p.inflight.Keys == (set c | c in m :: m[c].handle)
            && forall c :: c in m ==> s.calls[c].Holding? && s.calls[c].source == src)
  {
    hide Exec, Claims, Keeps, Books, LiveOnly;
    AlwaysGood(events);
    var s := Exec(Empty, events);
    var p, m := s.pools[id], Claims(s, id);
    BooksAsSets(p, m);
    forall c | c in m ensures c in s.calls && !s.calls[c].Failed? && s.calls[c].pool == id && (m[c].live <==> s.calls[c].Holding?) {
      ClaimIsOfCall(s, id, c);
    }
    if src :| InUse(s, src, id) { LiveOnlyAsSets(p, m); }
  }

  lemma BooksAsSets(p: Pool, m: map<CallId, Claim>)
    requires Books(p, m)
    ensures p.out == (set c | c in m :: m[c].conn)
    ensures forall c, d :: c in m && d in m && c != d ==> m[c].conn != m[d].conn
    ensures forall c :: c in m && m[c].live ==> m[c].handle in p.inflight && p.inflight[m[c].handle] == m[c].conn
  {
  }

  lemma LiveOnlyAsSets(p: Pool, m: map<CallId, Claim>)
    requires Books(p, m) && LiveOnly(p, m)
    ensures p.inflight.Keys == (set c | c in m :: m[c].handle)
    ensures forall c :: c in m ==> m[c].live
  {
  }

  lemma ClaimIsOfCall(s: State, id: PoolId, c: CallId)
    requires c in Claims(s, id)
    ensures c in s.calls && Keeps(s.calls[c], id) && !s.calls[c].Failed? && s.calls[c].pool == id
    ensures Claims(s, id)[c].live <==> s.calls[c].Holding?
  {
  }

  /** Finalising returns the connection if and only if the pool it came from is still the one in use
      for its source. */
  lemma FinaliseReturnsIffInUse(events: seq<Event>, call: CallId)
    requires Enabled(Exec(Empty, events), Finalise(call))
    ensures var s := Exec(Empty, events);
      var c, t := s.calls[call], Apply(s, Finalise(call));
      && c.pool in s.pools && c.conn in s.pools[c.pool].out && c.pool in t.pools
      && (c.conn !in t.pools[c.pool].out <==> InUse(s, c.source, c.pool))
  {
    AlwaysGood(events);
    var s := Exec(Empty, events);
    var c := s.calls[call];
    FinaliseClaims(s, call, c.pool);
    assert Books(s.pools[c.pool], Claims(s, c.pool));
    if !InUse(s, c.source, c.pool) { StaleReleaseIsNothing(s, call); }
  }

  lemma {:induction false} FinalisedStays(s: State, call: CallId, more: seq<Event>)
    requires call in s.calls && s.calls[call].Finalised?
    ensures call in Exec(s, more).calls && Exec(s, more).calls[call] == s.calls[call]
    ensures forall id :: id in s.pools ==> id in Exec(s, more).pools
    decreases |more|
  {
    if more != [] { FinalisedStays(s, call, more[..|more| - 1]); }
  }

  lemma {:induction false} ExecOfConcat(s: State, a: seq<Event>, b: seq<Event>)
    ensures Exec(s, a + b) == Exec(Exec(s, a), b)
    decreases |b|
  {
    if b == [] {
      assert a + b == a;
    } else {
      assert (a + b)[..|a + b| - 1] == a + b[..|b| - 1];
      ExecOfConcat(s, a, b[..|b| - 1]);
    }
  }

  /** A connection stranded by a close is never returned, whatever follows. */
  lemma StrandedForGood(events: seq<Event>, call: CallId, more: seq<Event>)
    requires var s := Exec(Empty, events); call in s.calls && s.calls[call].Finalised? && !s.calls[call].inUse
    ensures var c, t := Exec(Empty, events).calls[call], Exec(Empty, events + more);
      c.pool in t.pools && c.conn in t.pools[c.pool].out
  {
    var s, t := Exec(Empty, events), Exec(Empty, events + more);
    AlwaysGood(events);
    AlwaysGood(events + more);
    ExecOfConcat(Empty, events, more);
    FinalisedStays(s, call, more);
    var id := s.calls[call].pool;
    assert call in Claims(t, id) && Books(t.pools[id], Claims(t, id));
  }

  lemma NothingOutIff(p: Pool, m: map<CallId, Claim>)
    requires Books(p, m)
    ensures p.out == {} <==> m == map[]
    ensures LiveOnly(p, m) && m == map[] ==> p == Pool(map[], {})
  {
    if m != map[] {
      var c :| c in m;
      assert m[c].conn in p.out;
    }
    if LiveOnly(p, m) && m == map[] { assert p.inflight == map[]; }
  }

  lemma ClaimsAfterAll(s: State, id: PoolId)
    requires forall c :: c in s.calls ==> s.calls[c].Finalised? || s.calls[c].Failed?
    ensures Claims(s, id) == map[] <==>
      forall c :: c in s.calls && s.calls[c].Finalised? && s.calls[c].pool == id ==> s.calls[c].inUse
    ensures forall c :: c in Claims(s, id) ==> !Claims(s, id)[c].live
  {
    if c :| c in s.calls && s.calls[c].Finalised? && s.calls[c].pool == id && !s.calls[c].inUse {
      assert c in Claims(s, id);
    }
  }

  /** When every call has ended, a pool has nothing checked out if and only if no call was finalised
      while the pool was not in use; so the pools in use have nothing out. */
  lemma AllReturnedIff(events: seq<Event>, id: PoolId)
    requires var s := Exec(Empty, events);
      id in s.pools && forall c :: c in s.calls ==> s.calls[c].Finalised? || s.calls[c].Failed?
    ensures var s := Exec(Empty, events);
      && (s.pools[id].out == {} <==>
            forall c :: c in s.calls && s.calls[c].Finalised? && s.calls[c].pool == id ==> s.calls[c].inUse)
      && (forall src :: InUse(s, src, id) ==> s.pools[id] == Pool(map[], {}))
  {
    hide Exec, Claims, Books, LiveOnly;
    AlwaysGood(events);
    var s := Exec(Empty, events);
    NothingOutIff(s.pools[id], Claims(s, id));
    ClaimsAfterAll(s, id);
    if src :| InUse(s, src, id) {
      assert LiveOnly(s.pools[id], Claims(s, id));
      LiveOnlyOfNone(s.pools[id], Claims(s, id));
    }
  }

  lemma LiveOnlyOfNone(p: Pool, m: map<CallId, Claim>)
    requires LiveOnly(p, m) && forall c :: c in m ==> !m[c].live
    ensures m == map[]
  {
  }

  /** The failing case: a call is streaming, the provider is closed, the call ends. */
  lemma CloseStrandsConnection(source: Source, h: HandleId, x: Conn)
    ensures var s := Exec(Empty, [Install(source, 0), Lookup(0, source), Checkout(0, h, x), CloseAll, Finalise(0)]);
      0 in s.pools && s.pools[0] == Pool(map[h := x], {x}) && s.calls == map[0 := Finalised(source, 0, h, x, 0, false)]
  {
    var s1 := State(map[0 := Pool(map[], {})], map[source := 0], map[], []);
    var s2 := s1.(calls := map[0 := Found(source, 0)]);
    var s3 := State(map[0 := Pool(map[h := x], {x})], map[source := 0], map[0 := Holding(source, 0, h, x, 0)], [Took(0, h)]);
    var s4 := s3.(cached := map[]);
    var e1 := [Install(source, 0)];
    var e2 := e1 + [Lookup(0, source)];
    var e3 := e2 + [Checkout(0, h, x)];
    var e4 := e3 + [CloseAll];
    assert [] + [Install(source, 0)] == e1;
    CheckoutFromFresh(s2, source, h, x);
    OneMore([], Empty, Install(source, 0), s1);
    OneMore(e1, s1, Lookup(0, source), s2);
    OneMore(e2, s2, Checkout(0, h, x), s3);
    OneMore(e3, s3, CloseAll, s4);
    OneMore(e4, s4, Finalise(0), Apply(s4, Finalise(0)));
    assert e4 + [Finalise(0)] == [Install(source, 0), Lookup(0, source), Checkout(0, h, x), CloseAll, Finalise(0)];
  }

  lemma CheckoutFromFresh(s: State, source: Source, h: HandleId, x: Conn)
    requires s == State(map[0 := Pool(map[], {})], map[source := 0], map[0 := Found(source, 0)], [])
    ensures Apply(s, Checkout(0, h, x))
         == State(map[0 := Pool(map[h := x], {x})], map[source := 0], map[0 := Holding(source, 0, h, x, 0)], [Took(0, h)])
  {
    var t, p := Apply(s, Checkout(0, h, x)), Acquired(Pool(map[], {}), h, x);
    assert Enabled(s, Checkout(0, h, x));
    assert p == Pool(map[h := x], {x});
    assert t.pools == map[0 := p];
    assert t.calls == map[0 := Holding(source, 0, h, x, 0)];
  }

  lemma OneMore(events: seq<Event>, s: State, e: Event, t: State)
    requires Exec(Empty, events) == s && Apply(s, e) == t
    ensures Exec(Empty, events + [e]) == t
  {
    assert (events + [e])[..|events|] == events;
  }

  // ---------------------------------------------------------------- once per call

  predicate IsOf(a: Action, call: CallId) {
    a.call == call
  }

  // What one call did, in order.
  function OfCall(log: seq<Action>, call: CallId): seq<Action> {
    if log == [] then []
    else OfCall(log[..|log| - 1], call) + if IsOf(log[|log| - 1], call) then [log[|log| - 1]] else []
  }

  function Batches(call: CallId, n: nat): seq<Action> {
    if n == 0 then [] else Batches(call, n - 1) + [Batch(call)]
  }

  function Expected(s: State, call: CallId): seq<Action> {
    if call !in s.calls then []
    else match s.calls[call]
      case Found(_, _) => []
      case Failed => []
      case Holding(_, _, h, _, seen) => [Took(call, h)] + Batches(call, seen)
      case Finalised(_, _, h, _, seen, _) => [Took(call, h)] + Batches(call, seen) + [Gave(call, h)]
  }

  lemma OfCallOneMore(log: seq<Action>, a: Action, call: CallId)
    ensures OfCall(log + [a], call) == OfCall(log, call) + if IsOf(a, call) then [a] else []
  {
    assert (log + [a])[..|log|] == log;
  }

  lemma LogOneMore(s: State, e: Event, call: CallId)
    requires OfCall(s.log, call) == Expected(s, call)
    ensures var t := Apply(s, e); OfCall(t.log, call) == Expected(t, call)
  {
    hide OfCall, Acquired, Released;
    if Enabled(s, e) {
      match e
      case Checkout(c, h, _) => OfCallOneMore(s.log, Took(c, h), call);
      case Yield(c) => OfCallOneMore(s.log, Batch(c), call);
      case Finalise(c) => OfCallOneMore(s.log, Gave(c, s.calls[c].handle), call);
      case _ =>
    }
  }

  /** Whatever the interleaving, each call that checked a connection out gives its handle back once,
      after its last batch, by the time it is finalised; and a call gives back no other handle. */
  lemma {:induction false} EachHandleOnce(events: seq<Event>, call: CallId)
    ensures var s := Exec(Empty, events); OfCall(s.log, call) == Expected(s, call)
  {
    if events != [] {
      EachHandleOnce(events[..|events| - 1], call);
      LogOneMore(Exec(Empty, events[..|events| - 1]), events[|events| - 1], call);
    }
  }
}
