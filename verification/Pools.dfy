/** Building one connection pool per source: double-checked locking over a dictionary.

    Many `acquire` calls run at once, each a task; one uninterrupted stretch of a task is one
    event. The guard of the lock table has no await under it and so never makes a task wait. */
module Pools {

  type Source = string
  type TaskId = nat
  type PoolId = nat

  // Where one `_get_or_build_pool` call stands.
  datatype Phase =
    | AwaitingLock(source: Source)
    | Building(source: Source)
    | Got(source: Source, pool: PoolId)
    | Failed

  // Pools are numbered in the order they are created; `builtFor[p]` is the source of pool `p`.
  datatype State = State(
    cached: map<Source, PoolId>, owner: map<Source, TaskId>, tasks: map<TaskId, Phase>,
    builtFor: seq<Source>, handedToClose: seq<PoolId>)

  datatype Event =
    | Enter(t: TaskId, source: Source)      // first check, outside the lock
    | TakeLock(t: TaskId, hasFactory: bool) // the lock is free: second check
    | Built(t: TaskId)                      // the factory returns: insert, unlock
    | BuildFails(t: TaskId)                 // the factory, the secrets or a cancellation raises
    | GiveUp(t: TaskId)                     // cancelled while waiting for the lock
    | Close(order: seq<PoolId>)             // all cached pools, in dictionary order

  const Empty := State(map[], map[], map[], [], [])

  predicate Is(s: State, t: TaskId, awaiting: bool) {
    t in s.tasks && if awaiting then s.tasks[t].AwaitingLock? else s.tasks[t].Building?
  }

  ghost predicate Enabled(s: State, e: Event) {
    match e
    case Enter(t, _) => t !in s.tasks
    case TakeLock(t, _) => Is(s, t, true) && s.tasks[t].source !in s.owner
    case Built(t) => Is(s, t, false)
    case BuildFails(t) => Is(s, t, false)
    case GiveUp(t) => Is(s, t, true)
    case Close(order) => Lists(order, s.cached)
  }

  // `order` names every cached pool once.
  ghost predicate Lists(order: seq<PoolId>, cached: map<Source, PoolId>) {
    && (forall i, j :: 0 <= i < j < |order| ==> order[i] != order[j])
    && (forall p :: p in order <==> p in cached.Values)
  }

  function Set(s: State, t: TaskId, p: Phase): State {
    s.(tasks := s.tasks[t := p])
  }

  function Unlock(s: State, source: Source): State {
    s.(owner := s.owner - {source})
  }

  ghost function Apply(s: State, e: Event): State {
    if !Enabled(s, e) then s else
    match e
    case Enter(t, source) =>
      Set(s, t, if source in s.cached then Got(source, s.cached[source]) else AwaitingLock(source))
    case TakeLock(t, hasFactory) =>
      var source := s.tasks[t].source;
      if source in s.cached then Set(s, t, Got(source, s.cached[source]))
      else if !hasFactory then Set(s, t, Failed)
      else Set(s.(owner := s.owner[source := t]), t, Building(source))
    case Built(t) =>
      var source := s.tasks[t].source;
      var p := |s.builtFor|;
      Unlock(Set(s.(cached := s.cached[source := p], builtFor := s.builtFor + [source]), t, Got(source, p)), source)
    case BuildFails(t) => Unlock(Set(s, t, Failed), s.tasks[t].source)
    case GiveUp(t) => Set(s, t, Failed)
    case Close(order) => s.(cached := map[], handedToClose := s.handedToClose + order)
  }

  ghost function Exec(s: State, events: seq<Event>): State {
    if events == [] then s else Apply(Exec(s, events[..|events| - 1]), events[|events| - 1])
  }

  // ---------------------------------------------------------------- the lock discipline

  // A task between the second check and the insert owns the lock, and nothing is cached meanwhile.
  ghost predicate Exclusive(s: State) {
    && (forall t :: t in s.tasks && s.tasks[t].Building? ==>
          var src := s.tasks[t].source; src in s.owner && s.owner[src] == t && src !in s.cached)
    && (forall src :: src in s.owner ==> var t := s.owner[src]; t in s.tasks && s.tasks[t] == Building(src))
  }

  ghost predicate CachedRight(s: State) {
    forall src :: src in s.cached ==> s.cached[src] < |s.builtFor| && s.builtFor[s.cached[src]] == src
  }

  // Every pool ever inserted is in the cache or was handed to close, once and not both.
  ghost predicate Conserved(s: State) {
    && CachedRight(s)
    && (forall p :: p in s.handedToClose ==> p < |s.builtFor| && p !in s.cached.Values)
    && (forall i, j :: 0 <= i < j < |s.handedToClose| ==> s.handedToClose[i] != s.handedToClose[j])
    && (forall p :: 0 <= p < |s.builtFor| ==> p in s.cached.Values || p in s.handedToClose)
  }

  lemma LockingIsExclusive(s: State, t: TaskId, hasFactory: bool)
    requires Exclusive(s) && Enabled(s, TakeLock(t, hasFactory))
    ensures Exclusive(Apply(s, TakeLock(t, hasFactory)))
  {
    hide Lists;
  }

  lemma UnlockingIsExclusive(s: State, e: Event)
    requires Exclusive(s) && Enabled(s, e) && (e.Built? || e.BuildFails?)
    ensures Exclusive(Apply(s, e))
  {
    hide Lists;
  }

  lemma ExclusiveStep(s: State, e: Event)
    requires Exclusive(s)
    ensures Exclusive(Apply(s, e))
  {
    if Enabled(s, e) {
      if e.TakeLock? {
        hide Exclusive, Apply;
        LockingIsExclusive(s, e.t, e.hasFactory);
      } else if e.Built? || e.BuildFails? {
        hide Exclusive, Apply;
        UnlockingIsExclusive(s, e);
      }
    }
  }

  lemma BuiltConserves(s: State, t: TaskId)
    requires Exclusive(s) && Conserved(s) && Enabled(s, Built(t))
    ensures Conserved(Apply(s, Built(t)))
  {
    var u := Apply(s, Built(t));
    var src, p := s.tasks[t].source, |s.builtFor|;
    assert src !in s.cached;
    assert u.cached[src] == p;
    forall q | q in s.cached.Values ensures q in u.cached.Values {
      var r :| r in s.cached && s.cached[r] == q;
      assert u.cached[r] == q;
    }
  }

  lemma ConservedStep(s: State, e: Event)
    requires Exclusive(s) && Conserved(s)
    ensures Conserved(Apply(s, e))
  {
    if e.Built? && Enabled(s, e) {
      BuiltConserves(s, e.t);
    } else if e.Close? && Enabled(s, e) {
      var u := Apply(s, e);
      assert forall i :: 0 <= i < |s.handedToClose| ==> s.handedToClose[i] in s.handedToClose;
      assert forall i :: 0 <= i < |e.order| ==> e.order[i] in e.order;
    }
  }

  /** In every interleaving of acquires, failures, cancellations and closes: at most one task per
      source is between second check and insert, an insert never overwrites a cached pool, and
      every pool inserted is cached or was handed to close exactly once. */
  lemma {:induction false} PoolsConserved(events: seq<Event>)
    ensures Exclusive(Exec(Empty, events)) && Conserved(Exec(Empty, events))
  {
    if events != [] {
      var s := Exec(Empty, events[..|events| - 1]);
      PoolsConserved(events[..|events| - 1]);
      ExclusiveStep(s, events[|events| - 1]);
      ConservedStep(s, events[|events| - 1]);
    }
  }

  // ---------------------------------------------------------------- one pool per source

  function BuiltCount(built: seq<Source>, source: Source): nat {
    if built == [] then 0
    else BuiltCount(built[..|built| - 1], source) + if built[|built| - 1] == source then 1 else 0
  }

  function Closes(events: seq<Event>): nat {
    if events == [] then 0 else Closes(events[..|events| - 1]) + if events[|events| - 1].Close? then 1 else 0
  }

  // How the number of pools built for a source follows the cache.
  lemma OneStepCounts(s: State, e: Event, source: Source)
    requires Exclusive(s)
    ensures var t := Apply(s, e);
      BuiltCount(t.builtFor, source) + (if source in s.cached then 1 else 0)
        <= BuiltCount(s.builtFor, source) + (if source in t.cached then 1 else 0) + (if e.Close? then 1 else 0)
  {
    if e.Built? && Enabled(s, e) {
      var t := Apply(s, e);
      assert t.builtFor[..|t.builtFor| - 1] == s.builtFor;
      assert s.tasks[e.t].source !in s.cached;
    } else {
      hide BuiltCount, Exclusive;
    }
  }

  lemma {:induction false} CountsPools(events: seq<Event>, source: Source)
    ensures var s := Exec(Empty, events);
      BuiltCount(s.builtFor, source) <= Closes(events) + (if source in s.cached then 1 else 0)
  {
    if events != [] {
      hide Apply, BuiltCount, Exclusive, Conserved;
      var init, last := events[..|events| - 1], events[|events| - 1];
      CountsPools(init, source);
      PoolsConserved(init);
      OneStepCounts(Exec(Empty, init), last, source);
    } else {
      assert BuiltCount([], source) == 0;
    }
  }

  /** At most one pool per source is created between two closes: with no close, at most one. */
  lemma OnePoolPerSourceAndClose(events: seq<Event>, source: Source)
    ensures BuiltCount(Exec(Empty, events).builtFor, source) <= Closes(events) + 1
  {
    CountsPools(events, source);
  }

  ghost predicate Shared(s: State) {
    forall t :: t in s.tasks && s.tasks[t].Got? ==>
      s.tasks[t].source in s.cached && s.tasks[t].pool == s.cached[s.tasks[t].source]
  }

  lemma SharedStep(s: State, e: Event)
    requires Exclusive(s) && Shared(s) && !e.Close?
    ensures Shared(Apply(s, e))
  {
  }

  /** While nothing is closed, every caller that got a pool for a source got the cached one. */
  lemma {:induction false} CallersShare(events: seq<Event>)
    requires Closes(events) == 0
    ensures Shared(Exec(Empty, events))
  {
    if events != [] {
      var init, last := events[..|events| - 1], events[|events| - 1];
      CallersShare(init);
      PoolsConserved(init);
      SharedStep(Exec(Empty, init), last);
    }
  }

  // ---------------------------------------------------------------- what a close leaves behind

  // A call that has not found a pool yet and has not failed: it waits for the lock or builds.
  predicate InFlight(s: State, t: TaskId) {
    t in s.tasks && (s.tasks[t].AwaitingLock? || s.tasks[t].Building?)
  }

  predicate NoNewCall(events: seq<Event>) {
    forall i :: 0 <= i < |events| ==> !events[i].Enter?
  }

  ghost predicate Quiet(s: State) {
    forall t :: !InFlight(s, t)
  }

  lemma QuietStep(s: State, e: Event)
    requires Quiet(s) && s.cached == map[] && !e.Enter?
    ensures Quiet(Apply(s, e)) && Apply(s, e).cached == map[]
  {
    forall t ensures !InFlight(Apply(s, e), t) { assert !InFlight(s, t); }
    if e.TakeLock? || e.Built? || e.BuildFails? || e.GiveUp? { assert !InFlight(s, e.t); }
  }

  lemma {:induction false} QuietStaysEmpty(s: State, events: seq<Event>)
    requires Quiet(s) && s.cached == map[] && NoNewCall(events)
    ensures Quiet(Exec(s, events)) && Exec(s, events).cached == map[]
  {
    if events != [] {
      var init := events[..|events| - 1];
      assert forall i :: 0 <= i < |init| ==> init[i] == events[i];
      QuietStaysEmpty(s, init);
      QuietStep(Exec(s, init), events[|events| - 1]);
    }
  }

  lemma ExecOne(s: State, e: Event)
    ensures Exec(s, [e]) == Apply(s, e)
  {
    assert [e][..0] == [];
    assert Exec(s, [e][..0]) == s;
  }

  lemma ExecTwo(s: State, d: Event, e: Event)
    ensures Exec(s, [d, e]) == Apply(Apply(s, d), e)
  {
    assert [d, e][..1] == [d];
    ExecOne(s, d);
  }

  // A call in flight over an empty cache can still cache a pool: it builds, or the lock's owner does.
  lemma InFlightCanCache(s: State, t: TaskId) returns (more: seq<Event>)
    requires Exclusive(s) && s.cached == map[] && InFlight(s, t)
    ensures NoNewCall(more) && s.tasks[t].source in Exec(s, more).cached
  {
    var src := s.tasks[t].source;
    if s.tasks[t].Building? {
      more := [Built(t)];
      ExecOne(s, Built(t));
    } else if src in s.owner {
      more := [Built(s.owner[src])];
      ExecOne(s, Built(s.owner[src]));
    } else {
      more := [TakeLock(t, true), Built(t)];
      ExecTwo(s, TakeLock(t, true), Built(t));
    }
  }

  // Whatever happens, short of new calls, no pool is cached again.
  ghost predicate NothingCachedAgain(s: State) {
    forall more :: NoNewCall(more) ==> Exec(s, more).cached == map[]
  }

  /** After a close, in any reachable state, the cache stays empty until a new call comes if and only
      if no call is waiting for the lock or building at that moment. */
  lemma CloseLeavesNothingIff(events: seq<Event>, order: seq<PoolId>)
    requires Enabled(Exec(Empty, events), Close(order))
    ensures var s := Exec(Empty, events);
      NothingCachedAgain(Apply(s, Close(order))) <==> Quiet(s)
  {
    PoolsConserved(events);
    var s := Exec(Empty, events);
    var closed := Apply(s, Close(order));
    ExclusiveStep(s, Close(order));
    assert forall t :: InFlight(closed, t) <==> InFlight(s, t);
    if Quiet(s) {
      forall more | NoNewCall(more) ensures Exec(closed, more).cached == map[] { QuietStaysEmpty(closed, more); }
    } else {
      var t :| InFlight(s, t);
      var more := InFlightCanCache(closed, t);
      assert NoNewCall(more) && Exec(closed, more).cached != map[];
    }
  }

  /** What is cached after a close by calls in flight was handed to no close so far, and the next
      close would get it: only a provider that is closed once keeps it for good. */
  lemma CachedLaterIsUnclosed(events: seq<Event>, source: Source)
    requires source in Exec(Empty, events).cached
    ensures var s := Exec(Empty, events);
      && s.cached[source] !in s.handedToClose
      && forall order :: Enabled(s, Close(order)) ==> s.cached[source] in Apply(s, Close(order)).handedToClose
  {
    PoolsConserved(events);
    var s := Exec(Empty, events);
    assert s.cached[source] in s.cached.Values;
  }

  /** From an empty provider: one call builds while another waits behind it, the provider is closed
      with nothing to close, and both end up with a pool that no close was given. */
  lemma PoolOutlivesClose(source: Source)
    ensures var s := Exec(Empty, [Enter(0, source), TakeLock(0, true), Enter(1, source), Close([]), Built(0), TakeLock(1, true)]);
      s.cached == map[source := 0] && s.handedToClose == [] && 0 in s.tasks && 1 in s.tasks && s.tasks[0] == s.tasks[1] == Got(source, 0)
  {
    var s1 := State(map[], map[], map[0 := AwaitingLock(source)], [], []);
    var s2 := State(map[], map[source := 0], map[0 := Building(source)], [], []);
    var s3 := s2.(tasks := map[0 := Building(source), 1 := AwaitingLock(source)]);
    var s5 := State(map[source := 0], map[], map[0 := Got(source, 0), 1 := AwaitingLock(source)], [source], []);
    var e1 := [Enter(0, source)];
    var e2 := e1 + [TakeLock(0, true)];
    var e3 := e2 + [Enter(1, source)];
    var e4 := e3 + [Close([])];
    var e5 := e4 + [Built(0)];
    assert Apply(Empty, Enter(0, source)) == s1;
    assert Apply(s1, TakeLock(0, true)) == s2;
    assert Apply(s2, Enter(1, source)) == s3;
    BuiltAfterClose(s3, source, s5);
    assert [] + [Enter(0, source)] == e1;
    hide Apply;
    OneMore([], Empty, Enter(0, source), s1);
    OneMore(e1, s1, TakeLock(0, true), s2);
    OneMore(e2, s2, Enter(1, source), s3);
    OneMore(e3, s3, Close([]), s3);
    OneMore(e4, s3, Built(0), s5);
    OneMore(e5, s5, TakeLock(1, true), s5.(tasks := map[0 := Got(source, 0), 1 := Got(source, 0)]));
    assert e5 + [TakeLock(1, true)] == [Enter(0, source), TakeLock(0, true), Enter(1, source), Close([]), Built(0), TakeLock(1, true)];
  }

  lemma BuiltAfterClose(s: State, source: Source, t: State)
    requires s == State(map[], map[source := 0], map[0 := Building(source), 1 := AwaitingLock(source)], [], [])
    requires t == State(map[source := 0], map[], map[0 := Got(source, 0), 1 := AwaitingLock(source)], [source], [])
    ensures Apply(s, Close([])) == s && Apply(s, Built(0)) == t
    ensures Apply(t, TakeLock(1, true)) == t.(tasks := map[0 := Got(source, 0), 1 := Got(source, 0)])
  {
    assert Lists([], s.cached);
    assert Apply(s, Close([])) == s;
    hide Lists;
    assert Apply(s, Built(0)) == t by {
      assert [] + [source] == [source];
      assert map[source := 0] - {source} == map[];
    }
  }

  lemma OneMore(events: seq<Event>, s: State, e: Event, t: State)
    requires Exec(Empty, events) == s && Apply(s, e) == t
    ensures Exec(Empty, events + [e]) == t
  {
    assert (events + [e])[..|events|] == events;
  }

  // ---------------------------------------------------------------- what a call gets

  // The call's build or wait raised, or it found its kind to have no factory.
  ghost predicate Raised(s: State, e: Event, t: TaskId) {
    && Enabled(s, e)
    && match e
       case BuildFails(u) => u == t
       case GiveUp(u) => u == t
       case TakeLock(u, hasFactory) => u == t && !hasFactory && s.tasks[t].source !in s.cached
       case _ => false
  }

  ghost predicate EverRaised(events: seq<Event>, t: TaskId) {
    exists i :: 0 <= i < |events| && Raised(Exec(Empty, events[..i]), events[i], t)
  }

  lemma OneStepFails(s: State, e: Event, t: TaskId)
    ensures t in Apply(s, e).tasks && Apply(s, e).tasks[t].Failed? <==>
      (t in s.tasks && s.tasks[t].Failed?) || Raised(s, e, t)
  {
    hide Lists;
  }

  lemma RaisedOneMore(events: seq<Event>, e: Event, t: TaskId)
    ensures EverRaised(events + [e], t) <==> EverRaised(events, t) || Raised(Exec(Empty, events), e, t)
  {
    hide Exec, Raised;
    var all := events + [e];
    forall i | 0 <= i < |events| ensures all[..i] == events[..i] && all[i] == events[i] {}
    assert all[..|events|] == events && all[|events|] == e;
    if EverRaised(events, t) {
      var i :| 0 <= i < |events| && Raised(Exec(Empty, events[..i]), events[i], t);
      assert Raised(Exec(Empty, all[..i]), all[i], t);
    }
    if Raised(Exec(Empty, events), e, t) { assert Raised(Exec(Empty, all[..|events|]), all[|events|], t); }
    if EverRaised(all, t) {
      var i :| 0 <= i < |all| && Raised(Exec(Empty, all[..i]), all[i], t);
      if i < |events| { assert Raised(Exec(Empty, events[..i]), events[i], t); }
    }
  }

  /** A call fails if and only if its build raised, its wait was cancelled, or it came to build for a
      kind without a factory. */
  lemma {:induction false} FailsIffRaised(events: seq<Event>, t: TaskId)
    ensures var s := Exec(Empty, events); t in s.tasks && s.tasks[t].Failed? <==> EverRaised(events, t)
  {
    if events != [] {
      hide Apply, Raised, EverRaised;
      var init, last := events[..|events| - 1], events[|events| - 1];
      FailsIffRaised(init, t);
      OneStepFails(Exec(Empty, init), last, t);
      RaisedOneMore(init, last, t);
      assert init + [last] == events;
    }
  }

  /** A call that comes while its source has a pool gets that pool; any other waits for the lock. */
  lemma CachedPoolIsFound(events: seq<Event>, t: TaskId, source: Source)
    requires t !in Exec(Empty, events).tasks
    ensures var s := Exec(Empty, events);
      var u := Apply(s, Enter(t, source));
      && t in u.tasks && u.(tasks := s.tasks) == s
      && (forall r :: r in s.tasks ==> r in u.tasks && u.tasks[r] == s.tasks[r])
      && if source in s.cached then u.tasks[t] == Got(source, s.cached[source]) else u.tasks[t] == AwaitingLock(source)
  {
    hide Lists, Exec;
  }

  // How a call in flight comes to its end when nothing raises: whoever has the lock builds first.
  function ToTheEnd(s: State, t: TaskId, hasFactory: bool): seq<Event>
    requires InFlight(s, t)
  {
    if s.tasks[t].Building? then [Built(t)]
    else if s.tasks[t].source in s.owner then [Built(s.owner[s.tasks[t].source]), TakeLock(t, hasFactory)]
    else if s.tasks[t].source in s.cached then [TakeLock(t, hasFactory)]
    else [TakeLock(t, true), Built(t)]
  }

  /** A call in flight is two steps at most from a pool: with no failure it gets the pool that is then
      cached for its source, and it builds one only if it has the lock and found none. */
  lemma InFlightGetsThePool(events: seq<Event>, t: TaskId, hasFactory: bool)
    requires InFlight(Exec(Empty, events), t)
    ensures var s := Exec(Empty, events);
      var source, u := s.tasks[t].source, Exec(s, ToTheEnd(s, t, hasFactory));
      && |ToTheEnd(s, t, hasFactory)| <= 2
      && t in u.tasks && source in u.cached && u.tasks[t] == Got(source, u.cached[source])
      && (source in s.cached ==> u.cached[source] == s.cached[source])
      && |u.builtFor| == |s.builtFor| + (if source in s.cached then 0 else 1)
  {
    PoolsConserved(events);
    var s := Exec(Empty, events);
    var source := s.tasks[t].source;
    hide Lists, Conserved;
    if s.tasks[t].Building? {
      ExecOne(s, Built(t));
    } else if source in s.owner {
      ExecTwo(s, Built(s.owner[source]), TakeLock(t, hasFactory));
    } else if source in s.cached {
      ExecOne(s, TakeLock(t, hasFactory));
    } else {
      ExecTwo(s, TakeLock(t, true), Built(t));
    }
  }

  // What was handed to close stays so, in that order; a close hands over what was cached.
  lemma {:induction false} HandedForGood(s: State, events: seq<Event>)
    ensures s.handedToClose <= Exec(s, events).handedToClose
  {
    if events != [] { HandedForGood(s, events[..|events| - 1]); }
  }

  /** A wait can be given up and a build can raise at any time; the call then fails, and a build leaves
      the lock to the calls that wait for it. */
  lemma InFlightCanFail(events: seq<Event>, t: TaskId)
    requires InFlight(Exec(Empty, events), t)
    ensures var s := Exec(Empty, events);
      var u := Apply(s, if s.tasks[t].Building? then BuildFails(t) else GiveUp(t));
      && t in u.tasks && u.tasks[t] == Failed && u.cached == s.cached
      && (s.tasks[t].Building? ==>
            && s.tasks[t].source !in u.owner
            && forall w :: w != t && InFlight(s, w) && s.tasks[w].source == s.tasks[t].source ==>
                 w in u.tasks && u.tasks[w] == s.tasks[w] == AwaitingLock(s.tasks[t].source))
  {
    PoolsConserved(events);
    hide Lists, Exec;
  }
}
