/** What one call does to the pools: a round trip, and how it can fail. */
module HandleCalls {
  import opened Handles

  function Yields(call: CallId, n: nat): seq<Event> {
    if n == 0 then [] else Yields(call, n - 1) + [Yield(call)]
  }

  lemma Overwritten<K, V>(m: map<K, V>, k: K, a: V, b: V, c: V)
    ensures m[k := a][k := b][k := c] == m[k := c]
  {
  }

  lemma Regroup<T>(a: seq<T>, b: seq<T>, c: seq<T>, d: seq<T>)
    ensures (a + b) + c + d == a + (b + c + d)
  {
  }

  // The state in which a call that holds a connection has sent `n` batches.
  function Sending(s: State, call: CallId, n: nat): State
    requires call in s.calls && s.calls[call].Holding?
  {
    var c := s.calls[call];
    s.(calls := s.calls[call := Holding(c.source, c.pool, c.handle, c.conn, n)], log := s.log + Handles.Batches(call, n))
  }

  lemma SendsNone(s: State, call: CallId)
    requires call in s.calls && s.calls[call].Holding? && s.calls[call].seen == 0
    ensures Sending(s, call, 0) == s
  {
    assert s.calls[call := s.calls[call]] == s.calls;
    assert s.log + [] == s.log;
  }

  lemma SendsOneMore(s: State, call: CallId, n: nat)
    requires call in s.calls && s.calls[call].Holding?
    ensures Apply(Sending(s, call, n), Yield(call)) == Sending(s, call, n + 1)
  {
    var c := s.calls[call];
    Overwritten(s.calls, call, c, Holding(c.source, c.pool, c.handle, c.conn, n), Holding(c.source, c.pool, c.handle, c.conn, n + 1));
    assert s.calls[call := c] == s.calls;
    assert s.log + (Handles.Batches(call, n) + [Batch(call)]) == (s.log + Handles.Batches(call, n)) + [Batch(call)];
  }

  lemma {:induction false} AfterYields(s: State, call: CallId, n: nat)
    requires call in s.calls && s.calls[call].Holding? && s.calls[call].seen == 0
    ensures Exec(s, Yields(call, n)) == Sending(s, call, n)
    decreases n
  {
    hide Sending, Apply;
    if n == 0 {
      SendsNone(s, call);
    } else {
      var before := Yields(call, n - 1);
      AfterYields(s, call, n - 1);
      SendsOneMore(s, call, n - 1);
      assert (before + [Yield(call)])[..|before|] == before;
    }
  }

  // Acquire and release cancel out on a pool in use.
  lemma GivenBack(p: Pool, h: HandleId, c: Conn, pools: map<PoolId, Pool>, id: PoolId)
    requires id in pools && pools[id] == p && h !in p.inflight && c !in p.out
    ensures pools[id := Acquired(p, h, c)][id := Released(Acquired(p, h, c), h)] == pools
  {
    ReleaseUndoesAcquire(p, h, c);
    assert pools[id := p] == pools;
  }

  /** From every reachable state: a call that finds a pool in use, checks an idle connection out of it,
      sends its batches and ends leaves every pool as it was, has sent all of them, and has used one
      handle, taken before the first and given back after the last. */
  lemma CallRoundTrip(events: seq<Event>, call: CallId, source: Source, handle: HandleId, conn: Conn, n: nat)
    requires var s := Exec(Empty, events);
      && Enabled(s, Lookup(call, source)) && !Held(s, handle)
      && s.cached[source] in s.pools && conn !in s.pools[s.cached[source]].out
    ensures var s := Exec(Empty, events);
      var held := Apply(Apply(s, Lookup(call, source)), Checkout(call, handle, conn));
      var t := Apply(Exec(held, Yields(call, n)), Finalise(call));
      && conn in held.pools[s.cached[source]].out
      && t.pools == s.pools && t.cached == s.cached
      && t.calls == s.calls[call := Finalised(source, s.cached[source], handle, conn, n, true)]
      && t.log == s.log + ([Took(call, handle)] + Handles.Batches(call, n) + [Gave(call, handle)])
  {
    AlwaysGood(events);
    var s := Exec(Empty, events);
    var id := s.cached[source];
    var p := s.pools[id];
    UnheldIsUnknown(s, source, handle);
    Opens(s, call, source, handle, conn);
    var s2 := Apply(Apply(s, Lookup(call, source)), Checkout(call, handle, conn));
    assert conn in Acquired(p, handle, conn).out;
    hide Good, Held, Exec, Acquired, Released, Apply, Enabled;
    AfterYields(s2, call, n);
    var s3 := Exec(s2, Yields(call, n));
    Ends(s3, call, id);
    GivenBack(p, handle, conn, s.pools, id);
    Overwritten(s.calls, call, Holding(source, id, handle, conn, 0), Holding(source, id, handle, conn, n),
                Finalised(source, id, handle, conn, n, true));
    Regroup(s.log, [Took(call, handle)], Handles.Batches(call, n), [Gave(call, handle)]);
  }

  lemma Opens(s: State, call: CallId, source: Source, handle: HandleId, conn: Conn)
    requires Enabled(s, Lookup(call, source)) && !Held(s, handle)
    requires s.cached[source] in s.pools && conn !in s.pools[s.cached[source]].out
    ensures var id := s.cached[source];
      Apply(Apply(s, Lookup(call, source)), Checkout(call, handle, conn)) ==
        State(s.pools[id := Acquired(s.pools[id], handle, conn)], s.cached,
              s.calls[call := Holding(source, id, handle, conn, 0)], s.log + [Took(call, handle)])
  {
    hide Acquired;
    var id := s.cached[source];
    var s1 := Apply(s, Lookup(call, source));
    assert s1 == s.(calls := s.calls[call := Found(source, id)]);
    assert !Held(s1, handle);
    assert s1.calls[call := Holding(source, id, handle, conn, 0)] == s.calls[call := Holding(source, id, handle, conn, 0)];
  }

  lemma Ends(s: State, call: CallId, id: PoolId)
    requires call in s.calls && s.calls[call].Holding? && id in s.pools && s.calls[call].pool == id
    requires InUse(s, s.calls[call].source, id)
    ensures var c := s.calls[call];
      Apply(s, Finalise(call)) ==
        State(s.pools[id := Released(s.pools[id], c.handle)], s.cached,
              s.calls[call := Finalised(c.source, id, c.handle, c.conn, c.seen, true)], s.log + [Gave(call, c.handle)])
  {
    hide Released;
  }

  lemma UnheldIsUnknown(s: State, source: Source, handle: HandleId)
    requires Good(s) && source in s.cached && !Held(s, handle)
    ensures s.cached[source] in s.pools && handle !in s.pools[s.cached[source]].inflight
  {
    var id := s.cached[source];
    assert LiveOnly(s.pools[id], Claims(s, id));
  }

  // ---------------------------------------------------------------- what a call has done so far

  // How many batches went out for the call, and whether a checkout of it raised.
  function Sent(events: seq<Event>, call: CallId): nat {
    if events == [] then 0
    else
      var init := events[..|events| - 1];
      Sent(init, call) +
      if events[|events| - 1] == Yield(call) && Enabled(Exec(Empty, init), Yield(call)) then 1 else 0
  }

  predicate CheckoutRaised(events: seq<Event>, call: CallId) {
    events != [] &&
    var init := events[..|events| - 1];
    || CheckoutRaised(init, call)
    || (events[|events| - 1] == CheckoutFails(call) && Enabled(Exec(Empty, init), CheckoutFails(call)))
  }

  predicate CallAccounts(c: Call, sent: nat, raised: bool) {
    match c
    case Found(_, _) => sent == 0 && !raised
    case Holding(_, _, _, _, seen) => seen == sent && !raised
    case Finalised(_, _, _, _, seen, _) => seen == sent && !raised
    case Failed => sent == 0 && raised
  }

  lemma OneMoreOfCall(s: State, e: Event, call: CallId, sent: nat, raised: bool)
    requires if call in s.calls then CallAccounts(s.calls[call], sent, raised) else sent == 0 && !raised
    ensures var t := Apply(s, e);
      var sentNow := sent + if e == Yield(call) && Enabled(s, e) then 1 else 0;
      var raisedNow := raised || (e == CheckoutFails(call) && Enabled(s, e));
      if call in t.calls then CallAccounts(t.calls[call], sentNow, raisedNow) else sentNow == 0 && !raisedNow
  {
    hide Acquired, Released;
  }

  /** In every interleaving a call has failed if and only if its checkout raised, and otherwise records as
      many batches as were sent for it. */
  lemma {:induction false} CallsAccounted(events: seq<Event>, call: CallId)
    ensures var s := Exec(Empty, events);
      if call in s.calls then CallAccounts(s.calls[call], Sent(events, call), CheckoutRaised(events, call))
      else Sent(events, call) == 0 && !CheckoutRaised(events, call)
  {
    if events != [] {
      hide Apply, CallAccounts, Enabled;
      var init, last := events[..|events| - 1], events[|events| - 1];
      CallsAccounted(init, call);
      OneMoreOfCall(Exec(Empty, init), last, call, Sent(init, call), CheckoutRaised(init, call));
    }
  }

  // A checkout may raise at any time, and leaves everything else as it was.
  lemma FoundCallCanFail(s: State, call: CallId)
    requires call in s.calls && s.calls[call].Found?
    ensures Apply(s, CheckoutFails(call)) == s.(calls := s.calls[call := Failed])
  {
  }
}
